/** The Redis-backed fixed-window rate limiter: what it admits over any stretch of time. */
module RateLimit {
  import opened Wrappers

  /** The counter Redis keeps for a key, and the instant its TTL ends. */
  datatype Counter = Counter(count: nat, expires: int)

  /** INCR, and EXPIRE on the first hit of a window; an expired key counts as absent. */
  function Hit(c: Option<Counter>, now: int, window: nat): Counter {
    if c.Some? && now < c.value.expires then c.value.(count := c.value.count + 1)
    else Counter(1, now + window)
  }

  /** The counter after hits at these times. */
  function After(times: seq<int>, window: nat): Option<Counter> {
    if times == [] then None
    else Some(Hit(After(times[..|times| - 1], window), times[|times| - 1], window))
  }

  ghost predicate InOrder(times: seq<int>) {
    forall i, j :: 0 <= i < j < |times| ==> times[i] <= times[j]
  }

  function Least(a: int, b: int): int {
    if a <= b then a else b
  }

  /** How many of the hits in [lo, hi) were admitted; rejected hits were counted all the same. */
  function AdmittedIn(times: seq<int>, limit: nat, window: nat, lo: int, hi: int): nat {
    if times == [] then 0
    else
      AdmittedIn(times[..|times| - 1], limit, window, lo, hi)
      + (if lo <= times[|times| - 1] < hi && After(times, window).value.count <= limit then 1 else 0)
  }

  ghost function BeganAt(c: Counter, window: nat): int {
    c.expires - window
  }

  /** The counter window now open has admitted exactly min(count, limit) hits. */
  lemma {:induction false} WindowAdmits(times: seq<int>, limit: nat, window: nat)
    requires InOrder(times) && times != [] && limit >= 1 && window >= 1
    ensures var c := After(times, window).value;
            && BeganAt(c, window) <= times[|times| - 1] < c.expires
            && AdmittedIn(times, limit, window, BeganAt(c, window), c.expires) == Least(c.count, limit)
  {
    var n := |times| - 1;
    var before, t := times[..n], times[n];
    if before == [] {
      assert AdmittedIn(before, limit, window, t, t + window) == 0;
    } else {
      WindowAdmits(before, limit, window);
      if t >= After(before, window).value.expires {
        NoneSince(before, limit, window, t, t + window);
      }
    }
  }

  lemma {:induction false} NoneSince(times: seq<int>, limit: nat, window: nat, lo: int, hi: int)
    requires InOrder(times) && (times != [] ==> times[|times| - 1] < lo)
    ensures AdmittedIn(times, limit, window, lo, hi) == 0
  {
    if times != [] {
      NoneSince(times[..|times| - 1], limit, window, lo, hi);
    }
  }

  /** What is known of [x, x + window) when the open counter window began. */
  ghost predicate BurstSoFar(x: int, limit: nat, window: nat, c: Counter, last: int, admitted: nat) {
    var began := BeganAt(c, window);
    && c.count >= 1 && began <= last < c.expires
    && (last < x ==> admitted == 0)
    && (began < x ==> admitted <= Least(c.count, limit) - 1)
    && (x <= began < x + window ==> admitted <= limit - 1 + Least(c.count, limit))
    && admitted <= 2 * limit - 1
  }

  lemma {:induction false} BurstTracked(times: seq<int>, limit: nat, window: nat, x: int)
    requires InOrder(times) && times != [] && limit >= 1 && window >= 1
    ensures BurstSoFar(x, limit, window, After(times, window).value, times[|times| - 1],
                       AdmittedIn(times, limit, window, x, x + window))
  {
    var n := |times| - 1;
    if n > 0 {
      BurstTracked(times[..n], limit, window, x);
    } else {
      assert AdmittedIn(times[..n], limit, window, x, x + window) == 0;
    }
  }

  /** Any half-open interval as long as the window admits at most 2*limit - 1 requests. */
  lemma BurstBound(times: seq<int>, limit: nat, window: nat, x: int)
    requires InOrder(times) && limit >= 1 && window >= 1
    ensures AdmittedIn(times, limit, window, x, x + window) <= 2 * limit - 1
  {
    if times != [] {
      BurstTracked(times, limit, window, x);
    }
  }

  // -------------------------------------------------------------- the bound is reached

  function Repeat(t: int, n: nat): (r: seq<int>)
    ensures |r| == n && forall i :: 0 <= i < n ==> r[i] == t
  {
    seq(n, i => t)
  }

  /** n more hits inside the open window and within the limit are all admitted. */
  lemma {:induction false} RepeatAdmitted(times: seq<int>, limit: nat, window: nat, lo: int, hi: int, t: int, n: nat)
    requires times != [] && t < After(times, window).value.expires
    requires After(times, window).value.count + n <= limit && lo <= t < hi
    ensures var more := times + Repeat(t, n);
            && After(more, window) == Some(Counter(After(times, window).value.count + n,
                                                   After(times, window).value.expires))
            && AdmittedIn(more, limit, window, lo, hi) == AdmittedIn(times, limit, window, lo, hi) + n
  {
    var more := times + Repeat(t, n);
    if n == 0 {
      assert more == times;
    } else {
      RepeatAdmitted(times, limit, window, lo, hi, t, n - 1);
      assert more[..|more| - 1] == times + Repeat(t, n - 1);
    }
  }

  /** A burst straddling a window boundary reaches the bound exactly. */
  lemma BurstReached(limit: nat, window: nat) returns (times: seq<int>, x: int)
    requires limit >= 1 && window >= 2
    ensures InOrder(times) && AdmittedIn(times, limit, window, x, x + window) == 2 * limit - 1
  {
    x := 1;
    var hi := x + window;
    var first := [0];
    assert first[..0] == [];
    assert After(first, window) == Some(Counter(1, window)) && AdmittedIn(first, limit, window, x, hi) == 0;
    RepeatAdmitted(first, limit, window, x, hi, window - 1, limit - 1);
    var full := first + Repeat(window - 1, limit - 1);
    var next := full + [window];
    assert next[..|next| - 1] == full;
    RepeatAdmitted(next, limit, window, x, hi, window, limit - 1);
    times := next + Repeat(window, limit - 1);
  }

  // ------------------------------------------------------------------ many keys

  datatype Request = Request(key: string, now: int)

  /** The times at which `key` was hit. */
  function TimesOf(log: seq<Request>, key: string): seq<int> {
    if log == [] then []
    else
      var last := log[|log| - 1];
      TimesOf(log[..|log| - 1], key) + (if last.key == key then [last.now] else [])
  }

  lemma {:induction false} TimesInOrder(log: seq<Request>, key: string)
    requires forall i, j :: 0 <= i < j < |log| ==> log[i].now <= log[j].now
    ensures InOrder(TimesOf(log, key))
    ensures forall i :: 0 <= i < |TimesOf(log, key)| ==> log != [] && TimesOf(log, key)[i] <= log[|log| - 1].now
  {
    if log != [] {
      TimesInOrder(log[..|log| - 1], key);
    }
  }

  /** A counted request moves its own key's counter and no other. */
  lemma KeyAfter(log: seq<Request>, key: string, now: int, k: string, window: nat)
    ensures After(TimesOf(log + [Request(key, now)], k), window) ==
              if k == key then Some(Hit(After(TimesOf(log, k), window), now, window))
              else After(TimesOf(log, k), window)
  {
    var longer := log + [Request(key, now)];
    assert longer[..|longer| - 1] == log;
    if k == key {
      var times := TimesOf(longer, k);
      assert times[..|times| - 1] == TimesOf(log, k);
    } else {
      assert TimesOf(longer, k) == TimesOf(log, k);
    }
  }

  /** The middleware's counters; keys never disturb one another. */
  class RateLimiter {
    const window: nat
    var store: map<string, Counter>
    ghost var log: seq<Request> // requests counted so far

    ghost predicate Valid()
      reads this
    {
      && window >= 1
      && (forall i, j :: 0 <= i < j < |log| ==> log[i].now <= log[j].now)
      && (forall key :: Stored(key) == After(TimesOf(log, key), window))
    }

    function Stored(key: string): Option<Counter>
      reads this
    {
      if key in store then Some(store[key]) else None
    }

    constructor (window: nat)
      requires window >= 1
      ensures Valid() && log == [] && this.window == window
    {
      this.window := window;
      store := map[];
      log := [];
    }

    /** One request: counted and judged, or let through uncounted when Redis is unavailable. */
    method Admit(key: string, limit: nat, now: int, redisUp: bool) returns (admitted: bool)
      requires Valid() && (log != [] ==> log[|log| - 1].now <= now)
      modifies this
      ensures Valid()
      ensures log == if redisUp then old(log) + [Request(key, now)] else old(log)
      ensures admitted <==> (redisUp ==> After(TimesOf(log, key), window).value.count <= limit)
      ensures redisUp ==>
                && var live := key in old(store) && now < old(store)[key].expires;
                   && store == old(store)[key := if live
                                                 then Counter(old(store)[key].count + 1, old(store)[key].expires)
                                                 else Counter(1, now + window)]
                   && (admitted <==> store[key].count <= limit)
      ensures !redisUp ==> admitted && store == old(store)
    {
      if !redisUp {
        return true;
      }
      var counter := Hit(Stored(key), now, window);
      store := store[key := counter];
      log := log + [Request(key, now)];
      assert log[..|log| - 1] == old(log);
      forall k ensures Stored(k) == After(TimesOf(log, k), window) {
        KeyAfter(old(log), key, now, k, window);
        assert old(Stored(k)) == After(TimesOf(old(log), k), window);
      }
      admitted := counter.count <= limit;
    }

    /** Whatever the other keys do, one key gets at most 2*limit - 1 admissions in any window length. */
    lemma KeyBurstBound(key: string, limit: nat, x: int)
      requires Valid() && limit >= 1
      ensures AdmittedIn(TimesOf(log, key), limit, window, x, x + window) <= 2 * limit - 1
    {
      TimesInOrder(log, key);
      BurstBound(TimesOf(log, key), limit, window, x);
    }
  }
}
