/**
 * The fixed-window counter the documentation names, beside the limiter the code has: when the two decide a call alike.
 */
module FixedWindow {
  import opened Tables
  import opened OtpStore
  import opened RateLimiter

  /** A fixed window: its deadline is set by its first call and never extended. */
  function FixedHit(slot: Option<Timed<nat>>, now: int, window: int): Timed<nat> {
    match LiveAt(slot, now)
    case None => Timed(1, now + window)
    case Some(n) => Timed(n + 1, slot.value.expiresAt)
  }

  function FixedBefore(times: seq<int>, n: nat, window: int): Option<Timed<nat>>
    requires n <= |times|
  {
    if n == 0 then None else Some(FixedHit(FixedBefore(times, n - 1, window), times[n - 1], window))
  }

  predicate FixedAllowed(times: seq<int>, k: nat, limit: nat, window: int)
    requires k < |times|
  {
    FixedHit(FixedBefore(times, k, window), times[k], window).value <= limit
  }

  /** The call that opened the fixed window of call k. */
  function WindowOpener(times: seq<int>, k: nat, window: int): (f: nat)
    requires k < |times|
    ensures f <= k
  {
    if k == 0 then 0
    else
      var f := WindowOpener(times, k - 1, window);
      if times[k] < times[f] + window then f else k
  }

  /** The fixed counter is the number of calls since the window's opener, and the deadline is the opener's. */
  lemma {:induction false} FixedCountIs(times: seq<int>, k: nat, window: int)
    requires k < |times|
    ensures var f := WindowOpener(times, k, window);
            && FixedHit(FixedBefore(times, k, window), times[k], window) == Timed(k + 1 - f, times[f] + window)
            && (f < k ==> times[k] - times[f] < window)
  {
    if k > 0 { FixedCountIs(times, k - 1, window); }
  }

  /**
   * The limiter allows a call exactly when a silence lies among its last `limit` gaps, or it has not that many calls
   * before it.
   */
  lemma AllowedByGaps(times: seq<int>, k: nat, limit: nat, window: int)
    requires k < |times|
    ensures Allowed(times, k, limit, window) <==> k < limit || !NoSilence(times, k - limit, k, window)
  {
    CountIsBurst(times, k, window);
  }

  /** It is at least as strict as a fixed window. */
  lemma StricterThanFixed(times: seq<int>, k: nat, limit: nat, window: int)
    requires Ordered(times) && k < |times| && Allowed(times, k, limit, window)
    ensures FixedAllowed(times, k, limit, window)
  {
    FixedCountIs(times, k, window);
    AllowedEarly(times, WindowOpener(times, k, window), k, limit, window);
  }

  /**
   * Exactly when they decide a call differently: the call and the `limit` calls before it follow each other without a
   * silence, and yet a fixed window opened after the first of them.
   */
  lemma DifferIff(times: seq<int>, k: nat, limit: nat, window: int)
    requires Ordered(times) && k < |times|
    ensures Allowed(times, k, limit, window) != FixedAllowed(times, k, limit, window) <==>
            limit <= k && NoSilence(times, k - limit, k, window) && k - limit < WindowOpener(times, k, window)
  {
    AllowedByGaps(times, k, limit, window);
    FixedCountIs(times, k, window);
    if Allowed(times, k, limit, window) { StricterThanFixed(times, k, limit, window); }
  }

  /** The limit used up at once, one more call a second before the fixed window ends, and one when it has ended. */
  function RetryTrace(limit: nat, window: int): (times: seq<int>)
    ensures |times| == limit + 2
    ensures forall i :: 0 <= i < limit + 2 ==>
            times[i] == if i < limit then 0 else if i == limit then window - 1 else window
  {
    seq(limit + 2, i => if i < limit then 0 else if i == limit then window - 1 else window)
  }

  /** A caller that retries too early is locked out by the limiter and let in by a fixed window. */
  lemma RetryDiffers(limit: nat, window: int)
    requires limit >= 1 && window >= 2
    ensures Ordered(RetryTrace(limit, window))
    ensures !Allowed(RetryTrace(limit, window), limit + 1, limit, window)
    ensures FixedAllowed(RetryTrace(limit, window), limit + 1, limit, window)
  {
    var times := RetryTrace(limit, window);
    FixedCountIs(times, limit + 1, window);
    AllowedByGaps(times, limit + 1, limit, window);
  }
}
