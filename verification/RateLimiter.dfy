/**
  The sliding-window limiter with in-flight reservations (ratelimit.go:15-118). Times are integers; every
  operation is one section under the limiter's lock and is given the clock reading it takes.
 */
module RateLimiter {

  /** The times after the cutoff, in order. */
  function Recent(times: seq<int>, cutoff: int): seq<int> {
    if times == [] then []
    else
      var last := times[|times| - 1];
      Recent(times[..|times| - 1], cutoff) + (if last > cutoff then [last] else [])
  }

  lemma RecentSnoc(times: seq<int>, t: int, cutoff: int)
    ensures Recent(times + [t], cutoff) == Recent(times, cutoff) + (if t > cutoff then [t] else [])
  {
    assert (times + [t])[..|times|] == times;
  }

  /** Filtering again with a later cutoff is filtering with the later cutoff. */
  lemma {:induction false} RecentTwice(times: seq<int>, early: int, late: int)
    requires early <= late
    ensures Recent(Recent(times, early), late) == Recent(times, late)
  {
    if times != [] {
      var n := |times| - 1;
      RecentTwice(times[..n], early, late);
      var kept := Recent(times[..n], early);
      if times[n] > early {
        assert Recent(times, early) == kept + [times[n]];
        RecentSnoc(kept, times[n], late);
      } else {
        assert Recent(times, early) == kept + [] == kept;
        assert Recent(times, late) == Recent(times[..n], late) + [] == Recent(times[..n], late);
      }
    }
  }

  lemma {:induction false} RecentShorter(times: seq<int>, cutoff: int)
    ensures |Recent(times, cutoff)| <= |times|
  {
    if times != [] {
      RecentShorter(times[..|times| - 1], cutoff);
    }
  }

  lemma {:induction false} RecentShrinks(times: seq<int>, early: int, late: int)
    requires early <= late
    ensures |Recent(times, late)| <= |Recent(times, early)|
  {
    if times != [] {
      RecentShrinks(times[..|times| - 1], early, late);
    }
  }

  /** `pruneLocked`'s loop: the kept times are written over the front of the list that is being read. */
  method Compact(times: seq<int>, cutoff: int) returns (kept: seq<int>)
    ensures kept == Recent(times, cutoff)
  {
    var live, k := times, 0;
    for i := 0 to |times|
      invariant |live| == |times| && 0 <= k <= i
      invariant live[..k] == Recent(times[..i], cutoff) && live[i..] == times[i..]
    {
      assert times[..i + 1] == times[..i] + [times[i]];
      RecentSnoc(times[..i], times[i], cutoff);
      var at := live[i];
      assert at == live[i..][0] == times[i];
      if at > cutoff {
        live := live[k := at];
        assert live[..k + 1] == live[..k] + [at];
        k := k + 1;
      }
      assert live[i + 1..] == times[i..][1..];
    }
    assert times[..|times|] == times;
    return live[..k];
  }

  // ---------- the window bound ----------

  ghost predicate Sorted(times: seq<int>) { forall i, j | 0 <= i <= j < |times| :: times[i] <= times[j] }

  /** Every failure, when it was recorded, was at most the `limit`-th of the window ending with it. */
  ghost predicate BoundedLog(log: seq<int>, window: int, limit: int) {
    forall i | 0 <= i < |log| :: |Recent(log[..i + 1], log[i] - window)| <= limit
  }

  /** The failures of the window that ends at `t`: after `t - window`, not after `t`. */
  function InWindow(log: seq<int>, window: int, t: int): seq<int> {
    if log == [] then []
    else
      var last := log[|log| - 1];
      InWindow(log[..|log| - 1], window, t) + (if t - window < last <= t then [last] else [])
  }

  lemma {:induction false} InWindowIsRecent(log: seq<int>, window: int, t: int)
    requires forall i | 0 <= i < |log| :: log[i] <= t
    ensures InWindow(log, window, t) == Recent(log, t - window)
  {
    if log != [] {
      InWindowIsRecent(log[..|log| - 1], window, t);
    }
  }

  lemma BoundedBefore(log: seq<int>, window: int, limit: int, n: nat)
    requires BoundedLog(log, window, limit) && n <= |log|
    ensures BoundedLog(log[..n], window, limit)
  {
    hide Recent;
    var before := log[..n];
    forall i | 0 <= i < |before| ensures |Recent(before[..i + 1], before[i] - window)| <= limit {
      assert before[..i + 1] == log[..i + 1];
    }
  }

  /** No window of that length, wherever it ends, holds more than `limit` failures. */
  lemma {:induction false} EveryWindowIsBounded(log: seq<int>, window: int, limit: int, t: int)
    requires Sorted(log) && BoundedLog(log, window, limit) && limit >= 0
    ensures |InWindow(log, window, t)| <= limit
  {
    hide Recent;
    if log != [] {
      var n := |log| - 1;
      if log[n] > t {
        BoundedBefore(log, window, limit, n);
        EveryWindowIsBounded(log[..n], window, limit, t);
      } else {
        InWindowIsRecent(log, window, t);
        assert log[..n + 1] == log;
        assert |Recent(log[..n + 1], log[n] - window)| <= limit;
        RecentShrinks(log, log[n] - window, t - window);
      }
    }
  }

  // ---------- one key ----------

  /** What holds of a key: its kept failures, its reservations and its full log since the last reset. */
  ghost predicate KeyOk(failures: seq<int>, inFlight: int, log: seq<int>, clock: int, window: int, limit: int) {
    inFlight >= 0 && |failures| + inFlight <= limit && Sorted(log) && BoundedLog(log, window, limit) &&
    (forall i | 0 <= i < |log| :: log[i] <= clock) &&
    exists cutoff :: cutoff <= clock - window && failures == Recent(log, cutoff)
  }

  /** After pruning at `now` the kept failures are the log's recent ones. */
  lemma Pruned(failures: seq<int>, inFlight: int, log: seq<int>, clock: int, window: int, limit: int, now: int)
    requires KeyOk(failures, inFlight, log, clock, window, limit) && now >= clock
    ensures Recent(failures, now - window) == Recent(log, now - window)
    ensures KeyOk(Recent(failures, now - window), inFlight, log, now, window, limit)
  {
    var cutoff :| cutoff <= clock - window && failures == Recent(log, cutoff);
    RecentTwice(log, cutoff, now - window);
    RecentShorter(failures, now - window);
  }

  function OneLess(inFlight: int): int { if inFlight > 0 then inFlight - 1 else inFlight }

  /** A failure keeps the bound exactly when it had a reservation, or the limit was not reached without it. */
  lemma Failed(failures: seq<int>, inFlight: int, log: seq<int>, window: int, limit: int, now: int)
    requires KeyOk(failures, inFlight, log, now, window, limit) && window > 0
    requires failures == Recent(log, now - window)
    ensures KeyOk(failures + [now], OneLess(inFlight), log + [now], now, window, limit) <==>
            inFlight > 0 || |failures| < limit
  {
    if inFlight > 0 || |failures| < limit {
      FailedInTime(failures, inFlight, log, window, limit, now);
    }
  }

  lemma FailedInTime(failures: seq<int>, inFlight: int, log: seq<int>, window: int, limit: int, now: int)
    requires KeyOk(failures, inFlight, log, now, window, limit) && window > 0 && (inFlight > 0 || |failures| < limit)
    requires failures == Recent(log, now - window)
    ensures KeyOk(failures + [now], OneLess(inFlight), log + [now], now, window, limit)
  {
    RecentSnoc(log, now, now - window);
    hide Recent;
    var after := log + [now];
    assert failures + [now] == Recent(after, now - window);
    forall i | 0 <= i < |after| ensures |Recent(after[..i + 1], after[i] - window)| <= limit {
      if i < |log| {
        assert after[..i + 1] == log[..i + 1];
      } else {
        assert after[..i + 1] == after;
      }
    }
  }

  // ---------- the failure lists of all keys ----------

  function TimesOf(m: map<string, seq<int>>, key: string): seq<int> { if key in m then m[key] else [] }

  function WithTimes(m: map<string, seq<int>>, key: string, times: seq<int>): map<string, seq<int>> {
    if times == [] then m - {key} else m[key := times]
  }

  /** Every key outside `keys` has been pruned; no pruned key keeps an empty list. */
  ghost predicate AllPruned(was: map<string, seq<int>>, m: map<string, seq<int>>, keys: set<string>, cutoff: int) {
    (forall key: string ::
       TimesOf(m, key) == if key in keys then TimesOf(was, key) else Recent(TimesOf(was, key), cutoff)) &&
    forall key: string | key in m && key !in keys :: m[key] != []
  }

  lemma StartPruning(was: map<string, seq<int>>, cutoff: int)
    ensures AllPruned(was, was, was.Keys, cutoff)
  {
    assert Recent([], cutoff) == [];
    hide Recent;
  }

  lemma PruneOne(was: map<string, seq<int>>, m: map<string, seq<int>>, keys: set<string>, key: string, cutoff: int)
    requires AllPruned(was, m, keys, cutoff) && key in keys
    ensures AllPruned(was, WithTimes(m, key, Recent(TimesOf(m, key), cutoff)), keys - {key}, cutoff)
  {
    hide Recent;
    var after := WithTimes(m, key, Recent(TimesOf(m, key), cutoff));
    forall other: string
      ensures TimesOf(after, other) ==
              if other in keys - {key} then TimesOf(was, other) else Recent(TimesOf(was, other), cutoff)
    {
      assert TimesOf(m, other) == if other in keys then TimesOf(was, other) else Recent(TimesOf(was, other), cutoff);
    }
  }

  // ---------- the limiter ----------

  class Limiter {
    const window: int
    const maxFailure: int
    var failures: map<string, seq<int>>
    var inFlight: map<string, int>
    /** Every failure of a key since it was last reset, and the latest clock reading. */
    ghost var log: map<string, seq<int>>
    ghost var clock: int

    constructor (window: int, maxFailure: int, now: int)
      requires window > 0 && maxFailure >= 0
      ensures Valid() && this.window == window && this.maxFailure == maxFailure && clock == now
      ensures failures == map[] && inFlight == map[] && log == map[]
    {
      this.window, this.maxFailure := window, maxFailure;
      failures, inFlight, log, clock := map[], map[], map[], now;
      new;
      NothingYet(now, window, maxFailure);
    }

    function FailuresOf(key: string): seq<int>
      reads this`failures
    {
      TimesOf(failures, key)
    }

    function InFlightOf(key: string): int
      reads this`inFlight
    {
      if key in inFlight then inFlight[key] else 0
    }

    ghost function LogOf(key: string): seq<int>
      reads this`log
    {
      if key in log then log[key] else []
    }

    /** The key's state at time `t`. */
    ghost predicate Ok(key: string, t: int)
      reads this
    {
      KeyOk(FailuresOf(key), InFlightOf(key), LogOf(key), t, window, maxFailure)
    }

    ghost predicate Valid()
      reads this
    {
      window > 0 && forall key: string :: Ok(key, clock)
    }

    /** Nothing about the other keys changed. */
    twostate predicate Same(key: string)
      reads this
    {
      FailuresOf(key) == old(FailuresOf(key)) && InFlightOf(key) == old(InFlightOf(key)) &&
      LogOf(key) == old(LogOf(key))
    }

    twostate predicate OnlyKey(key: string)
      reads this
    {
      forall other: string | other != key :: Same(other)
    }

    method PruneLocked(key: string, now: int)
      modifies `failures
      ensures FailuresOf(key) == Recent(old(FailuresOf(key)), now - window)
      ensures forall other: string | other != key ::
                FailuresOf(other) == old(FailuresOf(other)) && (other in failures <==> other in old(failures))
      ensures failures == WithTimes(old(failures), key, Recent(old(FailuresOf(key)), now - window))
    {
      var kept := Compact(FailuresOf(key), now - window);
      if |kept| == 0 {
        failures := failures - {key};
        return;
      }
      failures := failures[key := kept];
    }

    /** Admission is the plain rule over the whole log, as if nothing were ever pruned. */
    method BeginAttempt(key: string, now: int) returns (granted: bool)
      requires Valid() && now >= clock
      modifies this
      ensures Valid() && clock == now && log == old(log) && OnlyKey(key)
      ensures granted <==> |Recent(old(LogOf(key)), now - window)| + old(InFlightOf(key)) < maxFailure
      ensures InFlightOf(key) == old(InFlightOf(key)) + if granted then 1 else 0
    {
      hide KeyOk, Recent;
      AllLater(now);
      assert Ok(key, clock);
      Pruned(FailuresOf(key), InFlightOf(key), LogOf(key), clock, window, maxFailure, now);
      PruneLocked(key, now);
      granted := |FailuresOf(key)| + InFlightOf(key) < maxFailure;
      if granted {
        Reserved(FailuresOf(key), InFlightOf(key), LogOf(key), now, window, maxFailure);
        inFlight := inFlight[key := InFlightOf(key) + 1];
      }
      clock := now;
      forall other: string | other != key ensures Same(other) && Ok(other, now) {
        assert old(Ok(other, now));
      }
      assert Ok(key, now);
    }

    /** Gives one reservation back, if there is one. */
    method Release(key: string)
      modifies `inFlight
      ensures InFlightOf(key) == OneLess(old(InFlightOf(key)))
      ensures forall other: string | other != key :: InFlightOf(other) == old(InFlightOf(other))
    {
      if InFlightOf(key) > 0 {
        inFlight := inFlight[key := InFlightOf(key) - 1];
      }
      if InFlightOf(key) == 0 {
        inFlight := inFlight - {key};
      }
    }

    /** Records a failure of the key at the present time. */
    method AddFailure(key: string, now: int)
      modifies `failures, `log
      ensures FailuresOf(key) == Recent(old(FailuresOf(key)), now - window) + [now]
      ensures LogOf(key) == old(LogOf(key)) + [now]
      ensures forall other: string | other != key ::
                FailuresOf(other) == old(FailuresOf(other)) && LogOf(other) == old(LogOf(other))
    {
      hide Recent;
      PruneLocked(key, now);
      failures := failures[key := FailuresOf(key) + [now]];
      log := log[key := LogOf(key) + [now]];
    }

    /**
      Callers hold a reservation from a granted `BeginAttempt`; without one, a failure breaks the bound exactly when
      the limit is reached already.
     */
    method EndAttempt(key: string, failed: bool, now: int)
      requires Valid() && now >= clock
      modifies this
      ensures clock == now && OnlyKey(key)
      ensures Valid() <==>
              !failed || old(InFlightOf(key)) > 0 || |Recent(old(LogOf(key)), now - window)| < maxFailure
      ensures InFlightOf(key) == OneLess(old(InFlightOf(key)))
      ensures LogOf(key) == old(LogOf(key)) + if failed then [now] else []
    {
      hide KeyOk, Recent;
      AllLater(now);
      assert Ok(key, clock) && Ok(key, now);
      if InFlightOf(key) > 0 {
        Released(FailuresOf(key), InFlightOf(key), LogOf(key), now, window, maxFailure);
      }
      Pruned(FailuresOf(key), InFlightOf(key), LogOf(key), clock, window, maxFailure, now);
      Failed(Recent(FailuresOf(key), now - window), InFlightOf(key), LogOf(key), window, maxFailure, now);
      Release(key);
      if failed {
        AddFailure(key, now);
      }
      forall other: string | other != key ensures Same(other) {
      }
      clock := now;
      forall other: string | other != key ensures Same(other) && Ok(other, now) {
        assert old(Ok(other, now));
      }
      assert Valid() <==> Ok(key, now);
    }

    method Reset(key: string)
      requires Valid()
      modifies this
      ensures Valid() && clock == old(clock) && OnlyKey(key)
      ensures LogOf(key) == [] && FailuresOf(key) == [] && InFlightOf(key) == old(InFlightOf(key))
    {
      hide KeyOk, Recent;
      assert Ok(key, clock);
      Forgotten(FailuresOf(key), InFlightOf(key), LogOf(key), clock, window, maxFailure);
      failures := failures - {key};
      log := log - {key};
      forall other: string | other != key ensures Same(other) && Ok(other, clock) {
        assert old(Ok(other, clock));
      }
      assert Ok(key, clock);
    }

    /** The loop of `sweep`, over the keys that have failures. */
    method PruneAll(now: int)
      modifies `failures
      ensures AllPruned(old(failures), failures, {}, now - window)
    {
      hide AllPruned, WithTimes;
      ghost var was := failures;
      var keys := failures.Keys;
      StartPruning(was, now - window);
      while keys != {}
        invariant keys <= was.Keys && AllPruned(was, failures, keys, now - window)
        decreases |keys|
      {
        var key: string :| key in keys;
        PruneOne(was, failures, keys, key, now - window);
        keys := keys - {key};
        PruneLocked(key, now);
      }
    }

    /** Prunes every key; no later admission is decided differently. */
    method Sweep(now: int)
      requires Valid() && now >= clock
      modifies this
      ensures Valid() && clock == now && log == old(log) && inFlight == old(inFlight)
      ensures forall key: string | key in failures :: failures[key] != []
      ensures forall key: string :: FailuresOf(key) == Recent(old(FailuresOf(key)), now - window)
    {
      hide KeyOk, Recent;
      PruneAll(now);
      clock := now;
      forall key: string ensures Ok(key, now) {
        assert TimesOf(failures, key) == Recent(TimesOf(old(failures), key), now - window);
        assert old(Ok(key, clock));
        Pruned(old(FailuresOf(key)), old(InFlightOf(key)), old(LogOf(key)), old(clock), window, maxFailure, now);
        assert FailuresOf(key) == Recent(old(FailuresOf(key)), now - window);
      }
    }

    lemma AllLater(now: int)
      requires Valid() && now >= clock
      ensures forall key: string :: Ok(key, now)
    {
      hide KeyOk;
      forall key: string ensures Ok(key, now) {
        assert Ok(key, clock);
        Later(FailuresOf(key), InFlightOf(key), LogOf(key), clock, window, maxFailure, now);
      }
    }

    /** At any moment, for every key: no window since its last reset holds more than the permitted failures. */
    lemma WindowBound(key: string, t: int)
      requires Valid()
      ensures |InWindow(LogOf(key), window, t)| <= maxFailure
      ensures |FailuresOf(key)| + InFlightOf(key) <= maxFailure
    {
      assert Ok(key, clock);
      EveryWindowIsBounded(LogOf(key), window, maxFailure, t);
    }
  }

  lemma NothingYet(now: int, window: int, limit: int)
    requires limit >= 0
    ensures KeyOk([], 0, [], now, window, limit)
  {
    assert [] == Recent([], now - window);
  }

  lemma Later(failures: seq<int>, inFlight: int, log: seq<int>, clock: int, window: int, limit: int, now: int)
    requires KeyOk(failures, inFlight, log, clock, window, limit) && now >= clock
    ensures KeyOk(failures, inFlight, log, now, window, limit)
  {
  }

  lemma Reserved(failures: seq<int>, inFlight: int, log: seq<int>, clock: int, window: int, limit: int)
    requires KeyOk(failures, inFlight, log, clock, window, limit) && |failures| + inFlight < limit
    ensures KeyOk(failures, inFlight + 1, log, clock, window, limit)
  {
  }

  lemma Released(failures: seq<int>, inFlight: int, log: seq<int>, clock: int, window: int, limit: int)
    requires KeyOk(failures, inFlight, log, clock, window, limit) && inFlight > 0
    ensures KeyOk(failures, inFlight - 1, log, clock, window, limit)
  {
  }

  lemma Forgotten(failures: seq<int>, inFlight: int, log: seq<int>, clock: int, window: int, limit: int)
    requires KeyOk(failures, inFlight, log, clock, window, limit)
    ensures KeyOk([], inFlight, [], clock, window, limit)
  {
    assert [] == Recent([], clock - window);
  }
}
