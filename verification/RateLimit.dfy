/**
 The fixed-window rate limiter (packages/rate-limit/src/rate-limit.service.ts) on an atomic counter
 store (packages/kv/src/kv.types.ts): the first increment of a key starts its window, later ones keep it.
 Time is in milliseconds.
 */
module KeyValueStore {
  import opened Wrappers

  /** A counter and, unless it is permanent, the moment from which it no longer counts. */
  datatype Entry = Entry(count: int, expiresAt: Option<real>)

  predicate Live(e: Entry, now: real) {
    e.expiresAt.None? || now < e.expiresAt.value
  }

  function Current(data: map<string, Entry>, key: string, now: real): Option<Entry> {
    if key in data && Live(data[key], now) then Some(data[key]) else None
  }

  /** The entry an increment leaves: only the first one of a window sets the expiry. */
  function Incremented(current: Option<Entry>, amount: int, ttlSec: Option<real>, now: real): Entry {
    match current
    case Some(e) => Entry(e.count + amount, e.expiresAt)
    case None => Entry(amount, if ttlSec.Some? then Some(now + ttlSec.value * 1000.0) else None)
  }

  class AtomicStore {
    var data: map<string, Entry>

    constructor ()
      ensures data == map[]
    {
      data := map[];
    }

    /** None when the time to live is not positive. */
    method Incr(key: string, amount: int, ttlSec: Option<real>, now: real) returns (count: Option<int>)
      modifies this
      ensures count.None? <==> ttlSec.Some? && ttlSec.value <= 0.0
      ensures count.None? ==> data == old(data)
      ensures count.Some? ==>
                var e := Incremented(Current(old(data), key, now), amount, ttlSec, now);
                data == old(data)[key := e] && count == Some(e.count)
    {
      if ttlSec.Some? && ttlSec.value <= 0.0 { return None; }
      if key in data && !Live(data[key], now) { data := data - {key}; }
      if key !in data {
        data := data[key := Entry(amount, if ttlSec.Some? then Some(now + ttlSec.value * 1000.0) else None)];
        return Some(amount);
      }
      data := data[key := Entry(data[key].count + amount, data[key].expiresAt)];
      return Some(data[key].count);
    }

    method Delete(key: string)
      modifies this
      ensures data == old(data) - {key}
    {
      data := data - {key};
    }
  }
}

module RateLimiting {
  import opened Wrappers
  import opened KeyValueStore

  datatype FailureMode = FailClosed | FailOpen

  datatype Verdict = Verdict(allowed: bool, remaining: int, limit: int, retryAfterSec: real)

  function Max0(n: int): nat {
    if n < 0 then 0 else n
  }

  function BuildResult(count: int, limit: int, windowSec: real): Verdict {
    Verdict(count <= limit, Max0(limit - count), limit, if count > limit then windowSec else 0.0)
  }

  function OpenResult(limit: int): Verdict {
    Verdict(true, limit, limit, 0.0)
  }

  class RateLimitService {
    const store: AtomicStore
    const failureMode: FailureMode

    constructor (store: AtomicStore, failureMode: FailureMode)
      ensures this.store == store && this.failureMode == failureMode
    {
      this.store, this.failureMode := store, failureMode;
    }

    /** None is the error handed to the caller when the store fails and the limiter fails closed. */
    method Hit(key: string, limit: int, windowSec: real, now: real) returns (r: Option<Verdict>)
      modifies store
      ensures windowSec > 0.0 ==>
                var e := Incremented(Current(old(store.data), key, now), 1, Some(windowSec), now);
                store.data == old(store.data)[key := e] && r == Some(BuildResult(e.count, limit, windowSec))
      ensures windowSec <= 0.0 ==>
                store.data == old(store.data) && r == if failureMode.FailOpen? then Some(OpenResult(limit)) else None
    {
      var count := store.Incr(key, 1, Some(windowSec), now);
      if count.None? { return if failureMode.FailClosed? then None else Some(OpenResult(limit)); }
      return Some(BuildResult(count.value, limit, windowSec));
    }

    method Reset(key: string, limit: int) returns (r: Verdict)
      modifies store
      ensures store.data == old(store.data) - {key} && r == OpenResult(limit)
    {
      store.Delete(key);
      return OpenResult(limit);
    }
  }

  // ---------- a timed sequence of hits on one key ----------

  /** Hit times in order; several hits may share a moment. */
  predicate Ordered(times: seq<real>) {
    forall i, j :: 0 <= i < j < |times| ==> times[i] <= times[j]
  }

  /** What the store holds for the key after the first n hits. */
  function StoreAfter(times: seq<real>, n: nat, windowSec: real): Option<Entry>
    requires n <= |times|
  {
    if n == 0 then None
    else
      var before := StoreAfter(times, n - 1, windowSec);
      var current := if before.Some? && Live(before.value, times[n - 1]) then before else None;
      Some(Incremented(current, 1, Some(windowSec), times[n - 1]))
  }

  /** Whether hit i is admitted. */
  predicate Admitted(times: seq<real>, limit: int, windowSec: real, i: nat)
    requires i < |times|
  {
    BuildResult(StoreAfter(times, i + 1, windowSec).value.count, limit, windowSec).allowed
  }

  function AdmittedCount(times: seq<real>, limit: int, windowSec: real, from: nat, to: nat): nat
    requires from <= to <= |times|
  {
    if from == to then 0
    else AdmittedCount(times, limit, windowSec, from, to - 1) + if Admitted(times, limit, windowSec, to - 1) then 1 else 0
  }

  // ---------- windows, without the store ----------

  /** The hit that opened the window hit i falls into: a window lasts one length from its first hit. */
  function Opener(times: seq<real>, windowSec: real, i: nat): (o: nat)
    requires i < |times|
    ensures o <= i
  {
    if i == 0 then 0
    else
      var o := Opener(times, windowSec, i - 1);
      if times[i] < times[o] + windowSec * 1000.0 then o else i
  }

  /** The store counts a hit's place within its window. */
  lemma {:induction false} StoreCountsWindow(times: seq<real>, windowSec: real, i: nat)
    requires i < |times|
    ensures var o := Opener(times, windowSec, i);
            StoreAfter(times, i + 1, windowSec) == Some(Entry(i - o + 1, Some(times[o] + windowSec * 1000.0)))
  {
    if i > 0 { StoreCountsWindow(times, windowSec, i - 1); }
  }

  lemma AdmittedIff(times: seq<real>, limit: int, windowSec: real, i: nat)
    requires i < |times|
    ensures Admitted(times, limit, windowSec, i) <==> i - Opener(times, windowSec, i) < limit
  {
    StoreCountsWindow(times, windowSec, i);
  }

  /** Hits from..to all fall into the window opened by hit o. */
  predicate InWindow(times: seq<real>, windowSec: real, o: nat, from: nat, to: nat)
    requires from <= to <= |times|
  {
    forall i :: from <= i < to ==> Opener(times, windowSec, i) == o
  }

  /** Within one window the hits admitted are those among its first `limit`. */
  lemma {:induction false} WindowAdmits(times: seq<real>, limit: int, windowSec: real, o: nat, from: nat, to: nat)
    requires o <= from <= to <= |times| && InWindow(times, windowSec, o, from, to)
    ensures AdmittedCount(times, limit, windowSec, from, to) ==
            Max0((if to - o <= Max0(limit) then to - o else Max0(limit)) - (from - o))
  {
    if from < to {
      WindowAdmits(times, limit, windowSec, o, from, to - 1);
      AdmittedIff(times, limit, windowSec, to - 1);
    }
  }

  /** A window admits exactly the smaller of its hits and the limit. */
  lemma WindowAdmitsExactly(times: seq<real>, limit: int, windowSec: real, o: nat, to: nat)
    requires o <= to <= |times| && InWindow(times, windowSec, o, o, to)
    ensures AdmittedCount(times, limit, windowSec, o, to) == if to - o <= Max0(limit) then to - o else Max0(limit)
  {
    WindowAdmits(times, limit, windowSec, o, o, to);
  }

  lemma {:induction false} CountSplits(times: seq<real>, limit: int, windowSec: real, from: nat, mid: nat, to: nat)
    requires from <= mid <= to <= |times|
    ensures AdmittedCount(times, limit, windowSec, from, to) ==
            AdmittedCount(times, limit, windowSec, from, mid) + AdmittedCount(times, limit, windowSec, mid, to)
  {
    if mid < to { CountSplits(times, limit, windowSec, from, mid, to - 1); }
  }

  /** The first hit from `from` on that opens a window, or `to` if none does. */
  function NextOpener(times: seq<real>, windowSec: real, from: nat, to: nat): (m: nat)
    requires from <= to <= |times|
    ensures from <= m <= to
    ensures m < to ==> Opener(times, windowSec, m) == m
    ensures forall i :: from <= i < m ==> Opener(times, windowSec, i) != i
    decreases |times| - from
  {
    if from == to || Opener(times, windowSec, from) == from then from else NextOpener(times, windowSec, from + 1, to)
  }

  lemma {:induction false} NoOpenerSameWindow(times: seq<real>, windowSec: real, from: nat, to: nat)
    requires 0 < from <= to <= |times|
    requires forall i :: from <= i < to ==> Opener(times, windowSec, i) != i
    ensures InWindow(times, windowSec, Opener(times, windowSec, from - 1), from, to)
  {
    if from < to { NoOpenerSameWindow(times, windowSec, from, to - 1); }
  }

  lemma {:induction false} WindowLasts(times: seq<real>, windowSec: real, m: nat, to: nat)
    requires m < to <= |times| && Opener(times, windowSec, m) == m && windowSec > 0.0
    requires forall i :: m <= i < to ==> times[i] < times[m] + windowSec * 1000.0
    ensures InWindow(times, windowSec, m, m, to)
  {
    if m + 1 < to { WindowLasts(times, windowSec, m, to - 1); }
  }

  /**
   Any half-open interval one window long admits at most 2 * limit - 1 hits, one fewer than the
   usual bound: two windows can only share it if the first one opened before it.
   */
  lemma IntervalBound(times: seq<real>, limit: int, windowSec: real, start: real, from: nat, to: nat)
    requires Ordered(times) && windowSec > 0.0 && from <= to <= |times|
    requires forall i :: from <= i < to ==> start <= times[i] < start + windowSec * 1000.0
    ensures AdmittedCount(times, limit, windowSec, from, to) <= Max0(2 * limit - 1)
  {
    var m := NextOpener(times, windowSec, from, to);
    CountSplits(times, limit, windowSec, from, m, to);
    if m < to {
      WindowLasts(times, windowSec, m, to);
      WindowAdmits(times, limit, windowSec, m, m, to);
    }
    if from < m {
      assert from > 0;
      NoOpenerSameWindow(times, windowSec, from, m);
      var o := Opener(times, windowSec, from - 1);
      WindowAdmits(times, limit, windowSec, o, from, m);
    }
  }

  // ---------- the bound is reached ----------

  /** One hit, limit - 1 hits half a window later, and limit hits when the window is over. */
  function Burst(limit: nat): seq<real> {
    seq(2 * limit, i => if i == 0 then 0.0 else if i < limit then 500.0 else 1000.0)
  }

  lemma {:induction false} BurstOpeners(limit: nat, i: nat)
    requires limit > 0 && i < 2 * limit
    ensures Opener(Burst(limit), 1.0, i) == if i < limit then 0 else limit
  {
    if i > 0 { BurstOpeners(limit, i - 1); }
  }

  /** All hits of the burst are admitted, and all but the first fall into one interval a window long. */
  lemma BoundReached(limit: nat)
    requires limit > 0
    ensures var times := Burst(limit);
            && Ordered(times)
            && (forall i :: 1 <= i < 2 * limit ==> 500.0 <= times[i] < 500.0 + 1000.0)
            && AdmittedCount(times, limit, 1.0, 1, 2 * limit) == 2 * limit - 1
  {
    var times := Burst(limit);
    forall i: nat | i < 2 * limit
      ensures Opener(times, 1.0, i) == if i < limit then 0 else limit
    {
      BurstOpeners(limit, i);
    }
    CountSplits(times, limit, 1.0, 1, limit, 2 * limit);
    WindowAdmits(times, limit, 1.0, 0, 1, limit);
    WindowAdmits(times, limit, 1.0, limit, limit, 2 * limit);
  }
}
