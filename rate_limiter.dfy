/**
 * The sliding-window-log rate limiter of `RedisService.checkRateLimit`.
 *
 * Each key holds a Redis sorted set of request timestamps. A check adds the
 * current time, removes the entries whose score lies in [0, now - W * 1000],
 * counts what is left, refreshes the key's expiry and answers
 * `allowed = count <= L`, `remaining = max(0, L - count)`. The member stored
 * is the decimal string of the timestamp, so two checks in the same
 * millisecond store one entry; a set of timestamps models that exactly.
 * When a Redis command throws, the check fails open with (true, 1).
 */
module RateLimit {

  datatype RateLimitResult = RateLimitResult(allowed: bool, remaining: int)

  /** The Redis command of a check that throws, if any (the store being unreachable). */
  datatype StoreFault = NoFault | FailsOnAdd | FailsOnPrune | FailsOnCount | FailsOnExpire

  /** The answer of a check whose store failed. */
  const FailOpen := RateLimitResult(true, 1)

  function WindowStart(now: int, windowInSeconds: int): int
  {
    now - windowInSeconds * 1000
  }

  /** zRemRangeByScore(key, 0, windowStart): drops the scores in [0, windowStart]. */
  function Prune(log: set<nat>, windowStart: int): (r: set<nat>)
    ensures r <= log
    ensures forall t :: t in r ==> t > windowStart
    ensures forall t :: t in log && t > windowStart ==> t in r
  {
    set t | t in log && !(0 <= t <= windowStart)
  }

  /** The log of a key; a key Redis does not hold reads as the empty set. */
  function LogOf(logs: map<string, set<nat>>, key: string): set<nat>
  {
    if key in logs then logs[key] else {}
  }

  /** The log after one complete check at `now`: add `now`, then prune. */
  function Recorded(log: set<nat>, now: nat, windowInSeconds: int): (r: set<nat>)
    ensures windowInSeconds > 0 ==> now in r
    ensures forall t :: t in r ==> WindowStart(now, windowInSeconds) < t
    ensures forall t :: t in r ==> t in log || t == now
    ensures forall t :: t in log && t > WindowStart(now, windowInSeconds) ==> t in r
  {
    Prune(log + {now}, WindowStart(now, windowInSeconds))
  }

  /** The decision taken from the post-insert, post-prune count. */
  function Decide(count: nat, limit: int): (r: RateLimitResult)
    ensures r.allowed <==> count <= limit
    ensures 0 <= r.remaining
    ensures limit >= 0 ==> r.remaining <= limit
    ensures r.remaining > 0 ==> r.remaining + count == limit
    ensures count <= limit ==> r.remaining == limit - count
    ensures !r.allowed ==> r.remaining == 0
  {
    RateLimitResult(count <= limit, if limit - count > 0 then limit - count else 0)
  }

  /** The answer of a complete check on `log` at `now`. */
  function Admit(log: set<nat>, now: nat, limit: int, windowInSeconds: int): RateLimitResult
  {
    Decide(|Recorded(log, now, windowInSeconds)|, limit)
  }

  /** The answer of a check whose first failing command is `fault`. */
  function CheckAnswer(logs: map<string, set<nat>>, key: string, limit: int, windowInSeconds: int,
                       now: nat, fault: StoreFault): RateLimitResult
  {
    if fault == NoFault then Admit(LogOf(logs, key), now, limit, windowInSeconds) else FailOpen
  }

  /** The logs after such a check: the commands before `fault` have run. */
  function LogsAfterCheck(logs: map<string, set<nat>>, key: string, windowInSeconds: int,
                          now: nat, fault: StoreFault): (r: map<string, set<nat>>)
    ensures forall k :: k != key ==> LogOf(r, k) == LogOf(logs, k)
    ensures fault != FailsOnAdd ==> now in LogOf(r, key) || windowInSeconds <= 0
  {
    match fault
    case FailsOnAdd => logs
    case FailsOnPrune => logs[key := LogOf(logs, key) + {now}]
    case _ => logs[key := Recorded(LogOf(logs, key), now, windowInSeconds)]
  }

  class RateLimiter {
    /** The sorted set of each key, as the set of its scores. */
    var logs: map<string, set<nat>>
    /** The expiry (in seconds) last set on each key; expiry itself is not modelled. */
    var ttl: map<string, int>

    constructor ()
      ensures logs == map[] && ttl == map[]
    {
      logs := map[];
      ttl := map[];
    }

    /** checkRateLimit(key, limit, windowInSeconds) at time `now`; `fault` names
        the command that throws, if any, and the commands before it have run. */
    method CheckRateLimit(key: string, limit: int, windowInSeconds: int, now: nat, fault: StoreFault)
      returns (r: RateLimitResult)
      modifies this
      ensures r == CheckAnswer(old(logs), key, limit, windowInSeconds, now, fault)
      ensures logs == LogsAfterCheck(old(logs), key, windowInSeconds, now, fault)
      ensures ttl == if fault == NoFault then old(ttl)[key := windowInSeconds] else old(ttl)
    {
      var windowStart := now - windowInSeconds * 1000;
      var log0 := LogOf(logs, key);
      if fault == FailsOnAdd {
        return FailOpen;
      }
      var added := log0 + {now};
      logs := logs[key := added];
      if fault == FailsOnPrune {
        return FailOpen;
      }
      var log := Prune(added, windowStart);
      assert log == Recorded(log0, now, windowInSeconds);
      logs := logs[key := log];
      if fault == FailsOnCount {
        return FailOpen;
      }
      var requestCount := |log|;
      if fault == FailsOnExpire {
        return FailOpen;
      }
      ttl := ttl[key := windowInSeconds];
      var remaining := if limit - requestCount > 0 then limit - requestCount else 0;
      r := RateLimitResult(requestCount <= limit, remaining);
    }
  }

  // ---------------------------------------------------------------------
  // Many checks on one key, with no store failure.

  function Last(times: seq<nat>): nat
    requires |times| > 0
  {
    times[|times| - 1]
  }

  /** The key's log after complete checks at `times`, from a key Redis does not hold. */
  function LogAfter(times: seq<nat>, windowInSeconds: int): set<nat>
  {
    if times == [] then {}
    else Recorded(LogAfter(times[..|times| - 1], windowInSeconds), Last(times), windowInSeconds)
  }

  /** The answer of check `i` in the run `times`. */
  function AnswerAt(times: seq<nat>, i: nat, limit: int, windowInSeconds: int): RateLimitResult
    requires i < |times|
  {
    Decide(|LogAfter(times[..i + 1], windowInSeconds)|, limit)
  }

  predicate NonDecreasing(times: seq<nat>)
  {
    forall i, j :: 0 <= i <= j < |times| ==> times[i] <= times[j]
  }

  predicate StrictlyIncreasing(times: seq<nat>)
  {
    forall i, j :: 0 <= i < j < |times| ==> times[i] < times[j]
  }

  /** When the clock does not go back, the log after a run is exactly the
      request times of the run that lie inside the last check's window:
      every entry ever recorded stays until its own window has passed. */
  lemma {:induction false} LogAfterIsWindow(times: seq<nat>, windowInSeconds: int)
    requires |times| > 0 && NonDecreasing(times)
    ensures LogAfter(times, windowInSeconds)
         == set t | t in times && t > WindowStart(Last(times), windowInSeconds)
  {
    var p := times[..|times| - 1];
    var x := Last(times);
    var ws := WindowStart(x, windowInSeconds);
    if p == [] {
      assert times == [x];
      assert LogAfter(p, windowInSeconds) == {};
    } else {
      LogAfterIsWindow(p, windowInSeconds);
      var wp := WindowStart(Last(p), windowInSeconds);
      assert Last(p) <= x;
      assert wp <= ws;
      assert times == p + [x];
      var lhs := LogAfter(times, windowInSeconds);
      var rhs := set t | t in times && t > ws;
      forall t | t in lhs ensures t in rhs { }
      forall t | t in rhs ensures t in lhs {
        if t != x {
          assert t in p;
        }
      }
    }
  }

  /** A non-empty finite set of indices has a largest element. */
  lemma MaxIndex(s: set<nat>) returns (k: nat)
    requires s != {}
    ensures k in s && forall i :: i in s ==> i <= k
    decreases s
  {
    var x :| x in s;
    if s == {x} {
      k := x;
    } else {
      var k' := MaxIndex(s - {x});
      k := if x < k' then k' else x;
      forall i | i in s ensures i <= k {
        if i != x { assert i in s - {x}; }
      }
    }
  }

  /** Distinct indices of a strictly increasing sequence name distinct times. */
  lemma {:induction false} IndicesAsTimes(times: seq<nat>, s: set<nat>)
    requires StrictlyIncreasing(times)
    requires forall i :: i in s ==> i < |times|
    ensures |set i | i in s :: times[i]| == |s|
    decreases s
  {
    if s != {} {
      var x :| x in s;
      var s' := s - {x};
      IndicesAsTimes(times, s');
      var img := set i | i in s :: times[i];
      var img' := set i | i in s' :: times[i];
      assert img == img' + {times[x]};
      assert times[x] !in img' by {
        forall i | i in s' ensures times[i] != times[x] {
          if i < x { assert times[i] < times[x]; } else { assert times[x] < times[i]; }
        }
      }
    }
  }

  /** The indices of the checks of `times` that were admitted at a time in (lo, hi]. */
  function AdmittedIn(times: seq<nat>, limit: int, windowInSeconds: int, lo: int, hi: int): set<nat>
  {
    set i: nat | i < |times| && AnswerAt(times, i, limit, windowInSeconds).allowed && lo < times[i] <= hi
  }

  /** The sliding-window guarantee: when request times are pairwise distinct
      and increasing, no trailing window of W seconds holds more than L
      admitted requests, including the denied requests in the log. */
  lemma AdmissionBound(times: seq<nat>, limit: int, windowInSeconds: int, windowEnd: int)
    requires StrictlyIncreasing(times) && limit >= 0
    ensures |AdmittedIn(times, limit, windowInSeconds, WindowStart(windowEnd, windowInSeconds), windowEnd)| <= limit
  {
    var lo := WindowStart(windowEnd, windowInSeconds);
    var s := AdmittedIn(times, limit, windowInSeconds, lo, windowEnd);
    if s != {} {
      var k := MaxIndex(s);
      var log := LogAfter(times[..k + 1], windowInSeconds);
      assert |log| <= limit by {
        assert AnswerAt(times, k, limit, windowInSeconds).allowed;
      }
      var img := set i | i in s :: times[i];
      AdmittedAreLogged(times, windowInSeconds, windowEnd, s, k);
      IndicesAsTimes(times, s);
      SubsetCard(img, log);
    }
  }

  /** The checks of a window up to check `k` are all still in the log that
      check `k` counted. */
  lemma AdmittedAreLogged(times: seq<nat>, windowInSeconds: int, windowEnd: int, s: set<nat>, k: nat)
    requires StrictlyIncreasing(times) && k < |times| && times[k] <= windowEnd
    requires forall i :: i in s ==> i <= k && WindowStart(windowEnd, windowInSeconds) < times[i]
    ensures (set i | i in s :: times[i]) <= LogAfter(times[..k + 1], windowInSeconds)
  {
    var prefix := times[..k + 1];
    assert NonDecreasing(prefix);
    LogAfterIsWindow(prefix, windowInSeconds);
    forall i | i in s ensures times[i] in LogAfter(prefix, windowInSeconds) {
      assert times[i] == prefix[i];
    }
  }

  lemma SubsetCard(a: set<nat>, b: set<nat>)
    requires a <= b
    ensures |a| <= |b|
  {
    assert b == a + (b - a);
  }

  /** Checks in the same millisecond store one entry, so a burst at one
      instant never grows the log beyond that entry. */
  lemma {:induction false} SameMillisecondBurst(times: seq<nat>, t: nat, windowInSeconds: int)
    requires |times| > 0 && windowInSeconds > 0
    requires forall j :: 0 <= j < |times| ==> times[j] == t
    ensures LogAfter(times, windowInSeconds) == {t}
  {
    if |times| > 1 {
      SameMillisecondBurst(times[..|times| - 1], t, windowInSeconds);
    } else {
      assert times[..0] == [];
    }
  }

  /** Hence the guarantee needs distinct times: every call of a burst in one
      millisecond is admitted with L - 1 remaining, however long the burst. */
  lemma BurstAllAdmitted(times: seq<nat>, t: nat, limit: int, windowInSeconds: int)
    requires |times| > 0 && windowInSeconds > 0 && limit >= 1
    requires forall j :: 0 <= j < |times| ==> times[j] == t
    ensures forall i :: 0 <= i < |times| ==>
      AnswerAt(times, i, limit, windowInSeconds) == RateLimitResult(true, limit - 1)
  {
    forall i | 0 <= i < |times|
      ensures AnswerAt(times, i, limit, windowInSeconds) == RateLimitResult(true, limit - 1)
    {
      SameMillisecondBurst(times[..i + 1], t, windowInSeconds);
    }
  }

  /** Six checks one second apart on a fresh limiter with L = 5 and W = 60:
      the first five are admitted with 4, 3, 2, 1, 0 remaining, the sixth is
      denied with 0 remaining, and the denied call is still recorded. */
  method SixRapidChecks(key: string, t0: nat) returns (answers: seq<RateLimitResult>, finalLog: set<nat>)
    ensures answers == [RateLimitResult(true, 4), RateLimitResult(true, 3), RateLimitResult(true, 2),
                        RateLimitResult(true, 1), RateLimitResult(true, 0), RateLimitResult(false, 0)]
    ensures finalLog == set j | 0 <= j < 6 :: t0 + 1000 * j
  {
    var limiter := new RateLimiter();
    answers := [];
    var i := 0;
    while i < 6
      invariant 0 <= i <= 6
      invariant LogOf(limiter.logs, key) == set j | 0 <= j < i :: t0 + 1000 * j
      invariant |answers| == i
      invariant forall j :: 0 <= j < i ==> answers[j] == Decide(j + 1, 5)
    {
      var before := set j | 0 <= j < i :: t0 + 1000 * j;
      var after := set j | 0 <= j < i + 1 :: t0 + 1000 * j;
      var a := limiter.CheckRateLimit(key, 5, 60, t0 + 1000 * i, NoFault);
      assert Recorded(before, t0 + 1000 * i, 60) == after;
      Spaced(t0, i + 1);
      answers := answers + [a];
      i := i + 1;
    }
    finalLog := LogOf(limiter.logs, key);
  }

  lemma {:induction false} Spaced(t0: nat, n: nat)
    ensures |set j | 0 <= j < n :: t0 + 1000 * j| == n
  {
    if n > 0 {
      Spaced(t0, n - 1);
      var s := set j | 0 <= j < n - 1 :: t0 + 1000 * j;
      assert (set j | 0 <= j < n :: t0 + 1000 * j) == s + {t0 + 1000 * (n - 1)};
    } else {
      assert (set j | 0 <= j < n :: t0 + 1000 * j) == {};
    }
  }
}
