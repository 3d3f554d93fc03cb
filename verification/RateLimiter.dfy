/** The shared rate limiter: one counter per key, restarted only after a silence of a whole window. */
module RateLimiter {
  import opened Tables
  import opened KeyValue
  import opened OtpStore

  /**
   * The counter one call leaves: a live counter goes up, a missing one starts at 1, and either lives a further window.
   */
  function Hit(slot: Option<Timed<nat>>, now: int, window: int): Timed<nat> {
    Timed(match LiveAt(slot, now) case None => 1 case Some(n) => n + 1, now + window)
  }

  class Limiter {
    const redis: Redis

    constructor (redis: Redis)
      ensures this.redis == redis
    {
      this.redis := redis;
    }

    /** The counting script, command by command; true means the call is refused. */
    method IsRateLimited(key: string, limit: nat, window: int) returns (limited: bool)
      requires key in redis.entries ==> SlotNumber(redis.entries, key).Some?
      modifies redis`entries
      ensures SlotNumber(redis.entries, key) == Some(Hit(SlotNumber(old(redis.entries), key), redis.now, window))
      ensures limited == (Hit(SlotNumber(old(redis.entries), key), redis.now, window).value > limit)
      ensures redis.entries - {key} == old(redis.entries) - {key}
    {
      var current := redis.Get(key);
      var count;
      if current.None? {
        count := 1;
        redis.SetEx(key, Number(count), window);
      } else {
        count := redis.Incr(key);
        redis.Expire(key, window);
      }
      return count > limit;
    }
  }

  // ---------------------------------------------------------------- traces of calls on one key

  predicate Ordered(times: seq<int>) {
    forall i, j :: 0 <= i < j < |times| ==> times[i] <= times[j]
  }

  /** The counter before call n, from a missing key. */
  function SlotBefore(times: seq<int>, n: nat, window: int): Option<Timed<nat>>
    requires n <= |times|
  {
    if n == 0 then None else Some(Hit(SlotBefore(times, n - 1, window), times[n - 1], window))
  }

  predicate Allowed(times: seq<int>, k: nat, limit: nat, window: int)
    requires k < |times|
  {
    Hit(SlotBefore(times, k, window), times[k], window).value <= limit
  }

  /** Calls i..k follow each other with no silence of a whole window. */
  predicate NoSilence(times: seq<int>, i: nat, k: nat, window: int)
    requires k < |times|
  {
    forall j :: i < j <= k ==> times[j] - times[j - 1] < window
  }

  /** The count after call k is the number of calls since the last silence. */
  lemma {:induction false} CountIsBurst(times: seq<int>, k: nat, window: int)
    requires k < |times|
    ensures var count := Hit(SlotBefore(times, k, window), times[k], window).value;
            && 1 <= count <= k + 1
            && NoSilence(times, k + 1 - count, k, window)
            && (count == k + 1 || times[k + 1 - count] - times[k - count] >= window)
            && (forall i: nat :: i <= k && NoSilence(times, i, k, window) ==> k < i + count)
  {
    if k > 0 { CountIsBurst(times, k - 1, window); }
  }

  /** A call is allowed exactly when some call at most limit - 1 before it opened the burst. */
  lemma AllowedIff(times: seq<int>, k: nat, limit: nat, window: int)
    requires k < |times|
    ensures Allowed(times, k, limit, window) <==>
            exists i: nat ::
                i <= k < i + limit && NoSilence(times, i, k, window) && (i == 0 || times[i] - times[i - 1] >= window)
  {
    CountIsBurst(times, k, window);
    var first := k + 1 - Hit(SlotBefore(times, k, window), times[k], window).value;
    forall i: nat | i <= k && NoSilence(times, i, k, window) && (i == 0 || times[i] - times[i - 1] >= window)
        ensures i == first {}
  }

  /** In a stretch with no silence, only the first `limit` calls can be allowed. */
  lemma AllowedEarly(times: seq<int>, i: nat, k: nat, limit: nat, window: int)
    requires i <= k < |times| && NoSilence(times, i, k, window) && Allowed(times, k, limit, window)
    ensures k < i + limit
  {
    CountIsBurst(times, k, window);
  }

  /** The allowed calls at times in [start, start + window). */
  function AllowedIn(times: seq<int>, start: int, limit: nat, window: int): set<nat> {
    set k: nat | k < |times| && start <= times[k] < start + window && Allowed(times, k, limit, window)
  }

  /** Every half-open interval of one window, wherever it starts, holds at most `limit` allowed calls. */
  lemma SlidingWindow(times: seq<int>, start: int, limit: nat, window: int)
    requires Ordered(times)
    ensures |AllowedIn(times, start, limit, window)| <= limit
  {
    var allowed := AllowedIn(times, start, limit, window);
    if allowed != {} {
      var first := Earliest(allowed);
      forall k | k in allowed ensures first <= k < first + limit {
        forall j | first < j <= k ensures times[j] - times[j - 1] < window {
          assert times[first] <= times[j - 1] && times[j] <= times[k];
        }
        AllowedEarly(times, first, k, limit, window);
      }
      CountUpTo(allowed, first, limit);
    }
  }

  /** After a refusal every call is refused until a silence of at least the window. */
  lemma RefusedUntilSilence(times: seq<int>, i: nat, k: nat, limit: nat, window: int)
    requires i < k < |times| && !Allowed(times, i, limit, window) && Allowed(times, k, limit, window)
    ensures exists j :: i < j <= k && times[j] - times[j - 1] >= window
  {
    if NoSilence(times, i, k, window) {
      CountIsBurst(times, i, window);
      var first := i + 1 - Hit(SlotBefore(times, i, window), times[i], window).value;
      assert NoSilence(times, first, k, window);
      AllowedEarly(times, first, k, limit, window);
    }
  }

  // ---------------------------------------------------------------- against a sliding-window log

  /** The log limiter: remembers its own allowed calls and allows one when fewer than `limit` lie in the last window. */
  predicate LogAllowed(times: seq<int>, k: nat, limit: nat, window: int)
    requires k < |times|
    decreases k, 1
  {
    |LogRecent(times, k, k, limit, window)| < limit
  }

  /** The calls before n that the log allowed and that lie less than a window before call k. */
  function LogRecent(times: seq<int>, k: nat, n: nat, limit: nat, window: int): set<nat>
    requires n <= k < |times|
    decreases n, 0
  {
    set i: nat | i < n && times[k] - times[i] < window && LogAllowed(times, i, limit, window)
  }

  /** At least as strict as the log: whatever the limiter allows, the log would have allowed too. */
  lemma StricterThanLog(times: seq<int>, k: nat, limit: nat, window: int)
    requires Ordered(times) && k < |times| && Allowed(times, k, limit, window)
    ensures LogAllowed(times, k, limit, window)
  {
    var recent := LogRecent(times, k, k, limit, window);
    if recent != {} {
      var first := Earliest(recent);
      forall j | first < j <= k ensures times[j] - times[j - 1] < window {
        assert times[first] <= times[j - 1] && times[j] <= times[k];
      }
      AllowedEarly(times, first, k, limit, window);
      CountUpTo(recent, first, k - first);
    } else {
      CountIsBurst(times, k, window);
    }
  }

  /**
   * It is not a fixed-window counter: a caller that never pauses for a whole window gets its first `limit` calls and no
   * more, however slow it is.
   */
  lemma SteadyCallerStarves(times: seq<int>, k: nat, limit: nat, window: int)
    requires k < |times| && NoSilence(times, 0, k, window)
    ensures Allowed(times, k, limit, window) <==> k < limit
  {
    CountIsBurst(times, k, window);
  }

  // ---------------------------------------------------------------- counting

  predicate IsEarliest(m: nat, s: set<nat>) {
    m in s && forall k :: k in s ==> m <= k
  }

  lemma {:induction false} EarliestExists(s: set<nat>)
    requires s != {}
    ensures exists m :: IsEarliest(m, s)
    decreases s
  {
    var x :| x in s;
    var rest := s - {x};
    assert s == rest + {x};
    if rest == {} {
      assert IsEarliest(x, s);
    } else {
      EarliestExists(rest);
      var m :| IsEarliest(m, rest);
      assert IsEarliest(if x < m then x else m, s);
    }
  }

  function Earliest(s: set<nat>): (m: nat)
    requires s != {}
    ensures IsEarliest(m, s)
  {
    EarliestExists(s);
    var m :| IsEarliest(m, s);
    m
  }

  lemma {:induction false} CountUpTo(s: set<nat>, from: nat, n: nat)
    requires forall k :: k in s ==> from <= k < from + n
    ensures |s| <= n
    decreases n
  {
    if n > 0 {
      CountUpTo(s - {from + n - 1}, from, n - 1);
    }
  }
}
