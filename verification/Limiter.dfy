/**
 * The sliding-window limiters of the kiosk server: pairing attempts per address and administrator
 * attempts per kiosk. Times are milliseconds and may be any integers.
 */
module Limiter {
  type Key = nat
  type Table = map<Key, seq<int>>

  datatype Kind = Pairing | Administrator

  function Window(kind: Kind): int {
    if kind == Pairing then 300000 else 60000
  }

  function Max(kind: Kind): nat {
    if kind == Pairing then 10 else 5
  }

  datatype Request = Request(key: Key, at: int)

  /** The attempts of the last window. */
  function Active(times: seq<int>, now: int, window: int): seq<int> {
    if times == [] then []
    else if now - times[0] < window then [times[0]] + Active(times[1..], now, window)
    else Active(times[1..], now, window)
  }

  function At(t: Table, key: Key): seq<int> {
    if key in t then t[key] else []
  }

  /** Pairing forgets every address without recent attempts. */
  function Pruned(t: Table, now: int): Table {
    map k | k in t && Active(t[k], now, Window(Pairing)) != [] :: Active(t[k], now, Window(Pairing))
  }

  /** The attempts that count for a request once the table has been pruned. */
  function Counted(kind: Kind, t: Table, r: Request): seq<int> {
    match kind
    case Pairing => At(Pruned(t, r.at), r.key)
    case Administrator => Active(At(t, r.key), r.at, Window(kind))
  }

  predicate Allows(kind: Kind, t: Table, r: Request) {
    |Counted(kind, t, r)| < Max(kind)
  }

  function NextTable(kind: Kind, t: Table, r: Request): Table {
    var counted := Counted(kind, t, r);
    match kind
    case Pairing => if Allows(kind, t, r) then Pruned(t, r.at)[r.key := counted + [r.at]] else Pruned(t, r.at)
    case Administrator => t[r.key := if Allows(kind, t, r) then counted + [r.at] else counted]
  }

  /** The table is pruned but for some keys. */
  ghost predicate PrunedBut(t: Table, before: Table, keys: set<Key>, now: int) {
    && (forall k :: k in keys ==> k in t && k in before && t[k] == before[k])
    && (forall k :: k !in keys ==> (k in t <==> k in Pruned(before, now)))
    && (forall k :: k !in keys && k in t && k in Pruned(before, now) ==> t[k] == Pruned(before, now)[k])
  }

  lemma PruneStep(t: Table, before: Table, keys: set<Key>, key: Key, now: int)
    requires PrunedBut(t, before, keys, now) && key in keys
    ensures var active := Active(t[key], now, Window(Pairing));
            PrunedBut(if active == [] then t - {key} else t[key := active], before, keys - {key}, now)
  {
  }

  class KioskServer {
    var pairAttemptsByAddress: Table
    var adminAttemptsByKiosk: Table

    constructor ()
      ensures pairAttemptsByAddress == map[] && adminAttemptsByKiosk == map[]
    {
      pairAttemptsByAddress, adminAttemptsByKiosk := map[], map[];
    }

    method AllowPairAttempt(address: Key, timestamp: int) returns (allowed: bool)
      modifies this`pairAttemptsByAddress
      ensures allowed == Allows(Pairing, old(pairAttemptsByAddress), Request(address, timestamp))
      ensures pairAttemptsByAddress == NextTable(Pairing, old(pairAttemptsByAddress), Request(address, timestamp))
    {
      ghost var before := pairAttemptsByAddress;
      var keys := pairAttemptsByAddress.Keys;
      while keys != {}
        invariant keys <= before.Keys && PrunedBut(pairAttemptsByAddress, before, keys, timestamp)
        decreases keys
      {
        var key :| key in keys;
        PruneStep(pairAttemptsByAddress, before, keys, key, timestamp);
        keys := keys - {key};
        var active := Active(pairAttemptsByAddress[key], timestamp, Window(Pairing));
        if active == [] {
          pairAttemptsByAddress := pairAttemptsByAddress - {key};
        } else {
          pairAttemptsByAddress := pairAttemptsByAddress[key := active];
        }
      }
      assert pairAttemptsByAddress == Pruned(before, timestamp);
      var attempts := At(pairAttemptsByAddress, address);
      if |attempts| >= Max(Pairing) {
        return false;
      }
      pairAttemptsByAddress := pairAttemptsByAddress[address := attempts + [timestamp]];
      allowed := true;
    }

    method AllowAdminAttempt(kiosk: Key, timestamp: int) returns (allowed: bool)
      modifies this`adminAttemptsByKiosk
      ensures allowed == Allows(Administrator, old(adminAttemptsByKiosk), Request(kiosk, timestamp))
      ensures adminAttemptsByKiosk == NextTable(Administrator, old(adminAttemptsByKiosk), Request(kiosk, timestamp))
    {
      var attempts := Active(At(adminAttemptsByKiosk, kiosk), timestamp, Window(Administrator));
      if |attempts| >= Max(Administrator) {
        adminAttemptsByKiosk := adminAttemptsByKiosk[kiosk := attempts];
        return false;
      }
      adminAttemptsByKiosk := adminAttemptsByKiosk[kiosk := attempts + [timestamp]];
      allowed := true;
    }
  }

  // ------------------------------------------------------------------------ runs

  /** The limiter's table beside a complete log of accepted attempts. */
  datatype State = State(table: Table, accepted: Table)

  function Step(kind: Kind, s: State, r: Request): State {
    var log := At(s.accepted, r.key);
    State(NextTable(kind, s.table, r),
      if Allows(kind, s.table, r) then s.accepted[r.key := log + [r.at]] else s.accepted)
  }

  function Run(kind: Kind, reqs: seq<Request>): State {
    if reqs == [] then State(map[], map[]) else Step(kind, Run(kind, reqs[..|reqs| - 1]), reqs[|reqs| - 1])
  }

  predicate NonDecreasing(reqs: seq<Request>) {
    forall i, j :: 0 <= i < j < |reqs| ==> reqs[i].at <= reqs[j].at
  }

  predicate Sorted(times: seq<int>) {
    forall i, j :: 0 <= i < j < |times| ==> times[i] <= times[j]
  }

  /** Any `max` consecutive attempts are followed by the next only after a window. */
  ghost predicate Spaced(times: seq<int>, window: int, max: nat) {
    forall i, j :: 0 <= i && i + max == j < |times| ==> times[j] - times[i] >= window
  }

  ghost predicate LogSound(kind: Kind, times: seq<int>, clock: int) {
    && Sorted(times) && Spaced(times, Window(kind), Max(kind))
    && forall i :: 0 <= i < |times| ==> times[i] <= clock
  }

  /** From `clock` on the table knows all that matters of the log. */
  ghost predicate Knows(kind: Kind, s: State, clock: int) {
    forall k, t :: t >= clock ==> Active(At(s.table, k), t, Window(kind)) == Active(At(s.accepted, k), t, Window(kind))
  }

  ghost predicate Inv(kind: Kind, s: State, clock: int) {
    Knows(kind, s, clock) && forall k :: LogSound(kind, At(s.accepted, k), clock)
  }

  lemma {:induction false} ActiveLater(times: seq<int>, now: int, later: int, window: int)
    requires now <= later
    ensures Active(Active(times, now, window), later, window) == Active(times, later, window)
  {
    if times != [] {
      ActiveLater(times[1..], now, later, window);
      if now - times[0] < window {
        assert ([times[0]] + Active(times[1..], now, window))[1..] == Active(times[1..], now, window);
      }
    }
  }

  lemma {:induction false} ActiveAppend(times: seq<int>, x: int, now: int, window: int)
    ensures Active(times + [x], now, window) == Active(times, now, window) + if now - x < window then [x] else []
  {
    if times == [] {
      assert [] + [x] == [x] && [x][1..] == [];
    } else {
      assert (times + [x])[1..] == times[1..] + [x];
      ActiveAppend(times[1..], x, now, window);
    }
  }

  /** From an active attempt on, all of a sorted log is active. */
  lemma {:induction false} ActiveSuffix(times: seq<int>, m: nat, now: int, window: int)
    requires Sorted(times) && m < |times| && now - times[m] < window
    ensures |Active(times, now, window)| >= |times| - m
  {
    if m > 0 {
      ActiveSuffix(times[1..], m - 1, now, window);
    } else if |times| > 1 {
      ActiveSuffix(times[1..], 0, now, window);
    }
  }

  /** The attempts that count are those of the log, however much was pruned or deleted. */
  lemma CountsLog(kind: Kind, s: State, clock: int, r: Request)
    requires Knows(kind, s, clock) && clock <= r.at
    ensures Counted(kind, s.table, r) == Active(At(s.accepted, r.key), r.at, Window(kind))
  {
    assert Counted(kind, s.table, r) == Active(At(s.table, r.key), r.at, Window(kind));
  }

  lemma NextActive(kind: Kind, table: Table, r: Request, k: Key, t: int)
    requires r.at <= t
    ensures Active(At(NextTable(kind, table, r), k), t, Window(kind))
         == Active(At(table, k) + if k == r.key && Allows(kind, table, r) then [r.at] else [], t, Window(kind))
  {
    var w := Window(kind);
    ActiveLater(At(table, k), r.at, t, w);
    if k == r.key && Allows(kind, table, r) {
      ActiveAppend(At(table, k), r.at, t, w);
      ActiveAppend(Active(At(table, k), r.at, w), r.at, t, w);
    } else {
      assert At(table, k) + [] == At(table, k);
    }
  }

  lemma StepKnows(kind: Kind, s: State, clock: int, r: Request)
    requires Knows(kind, s, clock) && clock <= r.at
    ensures Knows(kind, Step(kind, s, r), r.at)
  {
    var next, w := Step(kind, s, r), Window(kind);
    forall k, t | t >= r.at ensures Active(At(next.table, k), t, w) == Active(At(next.accepted, k), t, w) {
      NextActive(kind, s.table, r, k, t);
      if k == r.key && Allows(kind, s.table, r) {
        ActiveAppend(At(s.table, k), r.at, t, w);
        ActiveAppend(At(s.accepted, k), r.at, t, w);
      } else {
        assert At(s.table, k) + [] == At(s.table, k);
      }
    }
  }

  lemma SortedMore(times: seq<int>, clock: int, now: int)
    requires Sorted(times) && clock <= now && forall i :: 0 <= i < |times| ==> times[i] <= clock
    ensures Sorted(times + [now]) && forall i :: 0 <= i <= |times| ==> (times + [now])[i] <= now
  {
  }

  lemma SpacedMore(times: seq<int>, window: int, max: nat, now: int)
    requires Spaced(times, window, max) && max > 0
    requires |times| >= max ==> now - times[|times| - max] >= window
    ensures Spaced(times + [now], window, max)
  {
  }

  lemma AcceptKeepsSound(kind: Kind, times: seq<int>, clock: int, now: int)
    requires LogSound(kind, times, clock) && clock <= now
    requires |Active(times, now, Window(kind))| < Max(kind)
    ensures LogSound(kind, times + [now], now)
  {
    var n := |times|;
    if n >= Max(kind) && now - times[n - Max(kind)] < Window(kind) {
      ActiveSuffix(times, n - Max(kind), now, Window(kind));
    }
    SortedMore(times, clock, now);
    SpacedMore(times, Window(kind), Max(kind), now);
  }

  lemma StepKeepsInv(kind: Kind, s: State, clock: int, r: Request)
    requires Inv(kind, s, clock) && clock <= r.at
    ensures Inv(kind, Step(kind, s, r), r.at)
  {
    StepKnows(kind, s, clock, r);
    CountsLog(kind, s, clock, r);
    var next := Step(kind, s, r);
    forall k ensures LogSound(kind, At(next.accepted, k), r.at) {
      assert LogSound(kind, At(s.accepted, k), clock);
      if k == r.key && Allows(kind, s.table, r) {
        AcceptKeepsSound(kind, At(s.accepted, k), clock, r.at);
      }
    }
  }

  lemma {:induction false} RunHasInv(kind: Kind, reqs: seq<Request>, clock: int)
    requires NonDecreasing(reqs) && forall i :: 0 <= i < |reqs| ==> reqs[i].at <= clock
    ensures Inv(kind, Run(kind, reqs), clock)
  {
    if reqs != [] {
      var n := |reqs| - 1;
      RunHasInv(kind, reqs[..n], reqs[n].at);
      StepKeepsInv(kind, Run(kind, reqs[..n]), reqs[n].at, reqs[n]);
      InvLater(kind, Run(kind, reqs), reqs[n].at, clock);
    }
  }

  lemma InvLater(kind: Kind, s: State, clock: int, later: int)
    requires Inv(kind, s, clock) && clock <= later
    ensures Inv(kind, s, later)
  {
    forall k ensures LogSound(kind, At(s.accepted, k), later) {
      assert LogSound(kind, At(s.accepted, k), clock);
    }
  }

  // ---------------------------------------------------------------- main results

  lemma {:induction false} ActiveCount(times: seq<int>, now: int, window: int)
    requires forall i :: 0 <= i < |times| ==> times[i] <= now
    ensures |Active(times, now, window)| == CountIn(times, now - window + 1, window)
  {
    if times != [] {
      var n := |times| - 1;
      assert times == times[..n] + [times[n]];
      ActiveCount(times[..n], now, window);
      ActiveAppend(times[..n], times[n], now, window);
    }
  }

  lemma LastLatest(reqs: seq<Request>, r: Request)
    requires NonDecreasing(reqs + [r])
    ensures NonDecreasing(reqs) && forall i :: 0 <= i < |reqs| ==> reqs[i].at <= r.at
  {
    var all := reqs + [r];
    assert all[|reqs|] == r;
    assert forall i :: 0 <= i < |reqs| ==> all[i] == reqs[i];
  }

  lemma AllowsCounted(kind: Kind, s: State, r: Request)
    requires Inv(kind, s, r.at)
    ensures Allows(kind, s.table, r)
       <==> CountIn(At(s.accepted, r.key), r.at - Window(kind) + 1, Window(kind)) < Max(kind)
  {
    var log := At(s.accepted, r.key);
    CountsLog(kind, s, r.at, r);
    assert LogSound(kind, log, r.at);
    ActiveCount(log, r.at, Window(kind));
  }

  /**
   * While the clock does not go back, an attempt is refused exactly when the window that ends with it
   * already holds the limit: 10 accepted attempts in 5 minutes to pair, 5 in a minute for administrators.
   */
  lemma RefusedExactly(kind: Kind, reqs: seq<Request>, r: Request)
    requires NonDecreasing(reqs + [r])
    ensures var s := Run(kind, reqs);
            var window, limit := if kind == Pairing then 300000 else 60000, if kind == Pairing then 10 else 5;
            !Allows(kind, s.table, r) <==> CountIn(At(s.accepted, r.key), r.at - window + 1, window) >= limit
  {
    LastLatest(reqs, r);
    RunHasInv(kind, reqs, r.at);
    AllowsCounted(kind, Run(kind, reqs), r);
  }

  /** How many attempts fall into the window that begins at `start`. */
  function CountIn(times: seq<int>, start: int, window: int): nat {
    if times == [] then 0
    else CountIn(times[..|times| - 1], start, window) + if start <= times[|times| - 1] < start + window then 1 else 0
  }

  lemma {:induction false} CountSplit(times: seq<int>, m: nat, start: int, window: int)
    requires m <= |times| && forall i :: 0 <= i < m ==> times[i] < start
    ensures CountIn(times, start, window) <= |times| - m
  {
    if times != [] {
      var n := |times| - 1;
      CountSplit(times[..n], if m > n then n else m, start, window);
    }
  }

  lemma {:induction false} SpacedCount(times: seq<int>, start: int, window: int, max: nat)
    requires Sorted(times) && Spaced(times, window, max) && max > 0
    ensures CountIn(times, start, window) <= max
  {
    if times != [] {
      var n := |times| - 1;
      if start <= times[n] < start + window {
        if n >= max {
          assert times[n] - times[n - max] >= window;
          CountSplit(times, n - max + 1, start, window);
        } else {
          CountSplit(times, 0, start, window);
        }
      } else {
        SpacedCount(times[..n], start, window, max);
      }
    }
  }

  /** No interval of one window's length holds more accepted attempts of a key than the limit. */
  lemma NoWindowOverfull(kind: Kind, reqs: seq<Request>, key: Key, start: int)
    requires NonDecreasing(reqs)
    ensures CountIn(At(Run(kind, reqs).accepted, key), start, if kind == Pairing then 300000 else 60000)
         <= if kind == Pairing then 10 else 5
  {
    var clock := if reqs == [] then 0 else reqs[|reqs| - 1].at;
    RunHasInv(kind, reqs, clock);
    assert LogSound(kind, At(Run(kind, reqs).accepted, key), clock);
    SpacedCount(At(Run(kind, reqs).accepted, key), start, Window(kind), Max(kind));
  }

  // ------------------------------------------------------- a clock that goes back

  /** Attempts that were all made at time `t`. */
  ghost predicate AllAt(kind: Kind, times: seq<int>, t: int) {
    && Active(times, t, Window(kind)) == times
    && Active(times, t + Window(kind), Window(kind)) == []
    && CountIn(times, t, Window(kind)) == |times|
  }

  lemma OneMoreAt(kind: Kind, times: seq<int>, t: int)
    requires AllAt(kind, times, t)
    ensures AllAt(kind, times + [t], t)
  {
    ActiveAppend(times, t, t, Window(kind));
    ActiveAppend(times, t, t + Window(kind), Window(kind));
    assert (times + [t])[..|times|] == times;
  }

  lemma RunAppend(kind: Kind, reqs: seq<Request>, r: Request)
    ensures Run(kind, reqs + [r]) == Step(kind, Run(kind, reqs), r)
  {
    assert (reqs + [r])[..|reqs|] == reqs;
  }

  /** A state that has seen one key only. */
  ghost predicate OnlyKey(s: State, table: seq<int>, accepted: seq<int>) {
    s.table.Keys <= {0} && At(s.table, 0) == table && At(s.accepted, 0) == accepted
  }

  lemma OneKeyStep(kind: Kind, s: State, table: seq<int>, accepted: seq<int>, now: int)
    requires OnlyKey(s, table, accepted) && |Active(table, now, Window(kind))| < Max(kind)
    ensures OnlyKey(Step(kind, s, Request(0, now)), Active(table, now, Window(kind)) + [now], accepted + [now])
  {
    assert Counted(kind, s.table, Request(0, now)) == Active(table, now, Window(kind));
  }

  /** A burst of `n` attempts at one time, up to the limit, is accepted. */
  lemma {:induction false} BurstAccepted(kind: Kind, n: nat, t: int) returns (reqs: seq<Request>, times: seq<int>)
    requires n <= Max(kind)
    ensures |times| == n && AllAt(kind, times, t) && OnlyKey(Run(kind, reqs), times, times)
  {
    if n == 0 {
      reqs, times := [], [];
    } else {
      var reqs', times' := BurstAccepted(kind, n - 1, t);
      OneKeyStep(kind, Run(kind, reqs'), times', times', t);
      OneMoreAt(kind, times', t);
      RunAppend(kind, reqs', Request(0, t));
      reqs, times := reqs' + [Request(0, t)], times' + [t];
    }
  }

  /** When the clock goes back after an attempt a window later, either limit can be exceeded. */
  lemma ClockBackOverfills(kind: Kind, t: int) returns (reqs: seq<Request>)
    ensures CountIn(At(Run(kind, reqs).accepted, 0), t, if kind == Pairing then 300000 else 60000)
          > if kind == Pairing then 10 else 5
  {
    var burst, times := BurstAccepted(kind, Max(kind), t);
    var later := t + Window(kind);
    OneKeyStep(kind, Run(kind, burst), times, times, later);
    RunAppend(kind, burst, Request(0, later));
    var forgot := burst + [Request(0, later)];
    OneKeyStep(kind, Run(kind, forgot), [later], times + [later], t);
    RunAppend(kind, forgot, Request(0, t));
    reqs := forgot + [Request(0, t)];
    assert (times + [later] + [t])[..|times| + 1] == times + [later];
    assert (times + [later])[..|times|] == times;
  }
}
