/** How often a saved one-time code can be guessed at, over every timed trace of saves and claims on one account. */
module OtpBounds {
  import opened Tables
  import opened OtpStore

  datatype Op = Save(at: int, code: string, ttl: int) | Claim(at: int, guess: string)

  predicate Ordered(ops: seq<Op>) {
    forall i, j :: 0 <= i < j < |ops| ==> ops[i].at <= ops[j].at
  }

  /** The account after the first n operations, from empty keys. */
  function After(ops: seq<Op>, n: nat, maxAttempts: nat): Otp
    requires n <= |ops|
  {
    if n == 0 then Otp(None, None)
    else
      var o := After(ops, n - 1, maxAttempts);
      match ops[n - 1]
      case Save(at, code, ttl) => SaveOtp(o, at, code, ttl)
      case Claim(at, guess) => ClaimOtp(o, at, guess, maxAttempts).0
  }

  function ResultOf(ops: seq<Op>, k: nat, maxAttempts: nat): ClaimResult
    requires k < |ops| && ops[k].Claim?
  {
    ClaimOtp(After(ops, k, maxAttempts), ops[k].at, ops[k].guess, maxAttempts).1
  }

  /** The guess of this claim was compared with the stored code. */
  predicate Compared(ops: seq<Op>, k: nat, maxAttempts: nat)
    requires k < |ops| && ops[k].Claim?
  {
    ResultOf(ops, k, maxAttempts) == Accepted || ResultOf(ops, k, maxAttempts) == Wrong
  }

  /** Operation i saves a code that no operation before n replaces. */
  predicate SavedAt(ops: seq<Op>, i: nat, n: nat) {
    i < n <= |ops| && ops[i].Save? && forall k :: i < k < n ==> ops[k].Claim?
  }

  /** How many guesses the code saved by operation i was compared with before operation n. */
  function Comparisons(ops: seq<Op>, i: nat, n: nat, maxAttempts: nat): nat
    requires SavedAt(ops, i, n)
  {
    if n == i + 1 then 0
    else Comparisons(ops, i, n - 1, maxAttempts) + if Compared(ops, n - 1, maxAttempts) then 1 else 0
  }

  // ---------------------------------------------------------------- when a claim finds a code, and which

  /** The code of operation i is still stored after n operations: not replaced, not accepted, not locked out. */
  predicate Standing(ops: seq<Op>, i: nat, n: nat, maxAttempts: nat) {
    && SavedAt(ops, i, n)
    && (forall k :: i < k < n ==> ResultOf(ops, k, maxAttempts) == Absent || ResultOf(ops, k, maxAttempts) == Wrong)
  }

  lemma {:induction false} StoredIff(ops: seq<Op>, n: nat, maxAttempts: nat)
    requires n <= |ops|
    ensures After(ops, n, maxAttempts).code.Some? <==> exists i: nat :: Standing(ops, i, n, maxAttempts)
    ensures forall i: nat :: Standing(ops, i, n, maxAttempts) ==>
              After(ops, n, maxAttempts).code == Some(Timed(ops[i].code, ops[i].at + ops[i].ttl))
  {
    if n > 0 {
      StoredIff(ops, n - 1, maxAttempts);
      if ops[n - 1].Save? {
        assert Standing(ops, n - 1, n, maxAttempts);
      } else {
        forall i: nat ensures Standing(ops, i, n, maxAttempts) <==>
          Standing(ops, i, n - 1, maxAttempts) &&
          (ResultOf(ops, n - 1, maxAttempts) == Absent || ResultOf(ops, n - 1, maxAttempts) == Wrong) {}
        if After(ops, n, maxAttempts).code.Some? {
          var i: nat :| Standing(ops, i, n - 1, maxAttempts);
          assert Standing(ops, i, n, maxAttempts);
        }
      }
    }
  }

  /** A claim finds a code exactly while the last one saved stands and its lifetime has not run out. */
  lemma ClaimFindsIff(ops: seq<Op>, k: nat, maxAttempts: nat)
    requires k < |ops| && ops[k].Claim?
    ensures ResultOf(ops, k, maxAttempts) != Absent <==>
              exists i: nat :: Standing(ops, i, k, maxAttempts) && ops[k].at < ops[i].at + ops[i].ttl
  {
    StoredIff(ops, k, maxAttempts);
    if ResultOf(ops, k, maxAttempts) != Absent {
      var i: nat :| Standing(ops, i, k, maxAttempts);
    }
  }

  /**
   * A code is single-use: an accepted guess equals the last code saved, in time, and no claim since was accepted or
   * locked out.
   */
  lemma AcceptedOnce(ops: seq<Op>, k: nat, maxAttempts: nat)
    requires k < |ops| && ops[k].Claim? && ResultOf(ops, k, maxAttempts) == Accepted
    ensures exists i: nat ::
            Standing(ops, i, k, maxAttempts) && ops[i].code == ops[k].guess && ops[k].at < ops[i].at + ops[i].ttl
    ensures forall j: nat ::
            k < j < |ops| && (forall m :: k < m <= j ==> ops[m].Claim?) ==> ResultOf(ops, j, maxAttempts) == Absent
  {
    StoredIff(ops, k, maxAttempts);
    var i: nat :| Standing(ops, i, k, maxAttempts);
    forall j: nat | k < j < |ops| && (forall m :: k < m <= j ==> ops[m].Claim?)
      ensures ResultOf(ops, j, maxAttempts) == Absent
    {
      StoredIff(ops, j, maxAttempts);
      forall i: nat ensures !Standing(ops, i, j, maxAttempts) {
        if i > k { assert i < j ==> !ops[i].Save?; }
      }
    }
  }

  // ---------------------------------------------------------------- what a claim answers

  /**
   * The claim that started the attempts counter stored after n operations: the first wrong one since a guess was
   * accepted or locked out, or since the counter before ran out, 900 seconds after its own first claim. Saves leave the
   * counter alone.
   */
  function CounterStart(ops: seq<Op>, n: nat, maxAttempts: nat): (start: Option<nat>)
    requires n <= |ops|
    ensures start.Some? ==> start.value < n
  {
    if n == 0 then None
    else
      var start := CounterStart(ops, n - 1, maxAttempts);
      if ops[n - 1].Save? || ResultOf(ops, n - 1, maxAttempts) == Absent then start
      else if ResultOf(ops, n - 1, maxAttempts) != Wrong then None
      else if start.Some? && ops[n - 1].at < ops[start.value].at + 900 then start
      else Some(n - 1)
  }

  /** How many claims of the operations j to n - 1 were answered Wrong. */
  function WrongClaims(ops: seq<Op>, j: nat, n: nat, maxAttempts: nat): nat
    requires j <= n <= |ops|
  {
    if n == j then 0
    else
      WrongClaims(ops, j, n - 1, maxAttempts) +
        if ops[n - 1].Claim? && ResultOf(ops, n - 1, maxAttempts) == Wrong then 1 else 0
  }

  /** The wrong claims on the counter that is live at operation k. */
  function WrongBefore(ops: seq<Op>, k: nat, maxAttempts: nat): nat
    requires k < |ops|
  {
    var start := CounterStart(ops, k, maxAttempts);
    if start.Some? && ops[k].at < ops[start.value].at + 900 then WrongClaims(ops, start.value, k, maxAttempts) else 0
  }

  lemma {:induction false} CounterIs(ops: seq<Op>, n: nat, maxAttempts: nat)
    requires n <= |ops|
    ensures var start := CounterStart(ops, n, maxAttempts);
            if start.None? then After(ops, n, maxAttempts).attempts == None
            else
              var count := WrongClaims(ops, start.value, n, maxAttempts);
              count > 0 && After(ops, n, maxAttempts).attempts == Some(Timed(count, ops[start.value].at + 900))
  {
    if n > 0 { CounterIs(ops, n - 1, maxAttempts); }
  }

  /** The last saved code stands and lives at claim k. */
  predicate Found(ops: seq<Op>, i: nat, k: nat, maxAttempts: nat)
    requires k < |ops|
  {
    Standing(ops, i, k, maxAttempts) && ops[k].at < ops[i].at + ops[i].ttl
  }

  /**
   * The answers told from the trace: with a code found, a claim is locked out once maxAttempts wrong claims are on the
   * live counter; before that the right guess is accepted, whichever attempt it is, and any other is wrong.
   */
  lemma AnswersIff(ops: seq<Op>, k: nat, maxAttempts: nat)
    requires k < |ops| && ops[k].Claim?
    ensures ResultOf(ops, k, maxAttempts) == Accepted <==>
            WrongBefore(ops, k, maxAttempts) < maxAttempts &&
            exists i: nat :: Found(ops, i, k, maxAttempts) && ops[i].code == ops[k].guess
    ensures ResultOf(ops, k, maxAttempts) == Wrong <==>
            WrongBefore(ops, k, maxAttempts) < maxAttempts &&
            exists i: nat :: Found(ops, i, k, maxAttempts) && ops[i].code != ops[k].guess
    ensures ResultOf(ops, k, maxAttempts) == MaxAttempts <==>
            WrongBefore(ops, k, maxAttempts) >= maxAttempts && exists i: nat :: Found(ops, i, k, maxAttempts)
  {
    StoredIff(ops, k, maxAttempts);
    CounterIs(ops, k, maxAttempts);
    assert AttemptsAt(After(ops, k, maxAttempts), ops[k].at) == WrongBefore(ops, k, maxAttempts);
    if ResultOf(ops, k, maxAttempts) != Absent {
      var i: nat :| Standing(ops, i, k, maxAttempts);
      assert Found(ops, i, k, maxAttempts);
    }
  }

  // ---------------------------------------------------------------- the bound

  /** maxAttempts for every started counter lifetime in a span of d seconds. */
  function Full(maxAttempts: nat, d: int): nat
    decreases d
  {
    if d <= 0 then 0 else maxAttempts + Full(maxAttempts, d - OTP_TTL_SECONDS)
  }

  lemma {:induction false} FullMonotone(maxAttempts: nat, d: int, e: int)
    requires d <= e
    ensures Full(maxAttempts, d) <= Full(maxAttempts, e)
    decreases e
  {
    if d > 0 { FullMonotone(maxAttempts, d - OTP_TTL_SECONDS, e - OTP_TTL_SECONDS); }
  }

  /** In closed form: maxAttempts times the number of lifetimes, rounded up. */
  lemma {:induction false} FullIs(maxAttempts: nat, d: int)
    requires d > 0
    ensures Full(maxAttempts, d) == maxAttempts * ((d + OTP_TTL_SECONDS - 1) / OTP_TTL_SECONDS)
    decreases d
  {
    var rest := d - OTP_TTL_SECONDS;
    if rest > 0 {
      FullIs(maxAttempts, rest);
      var w := (rest + OTP_TTL_SECONDS - 1) / OTP_TTL_SECONDS;
      assert (d + OTP_TTL_SECONDS - 1) / OTP_TTL_SECONDS == w + 1;
      assert maxAttempts * (w + 1) == maxAttempts * w + maxAttempts;
    } else {
      assert (d + OTP_TTL_SECONDS - 1) / OTP_TTL_SECONDS == 1;
    }
  }

  /** How many more comparisons the stored code can meet. */
  function Budget(o: Otp, now: int, maxAttempts: nat): int {
    if LiveAt(o.code, now).None? then 0
    else if AttemptsAt(o, now) == 0 then Full(maxAttempts, o.code.value.expiresAt - now)
    else maxAttempts - AttemptsAt(o, now) + Full(maxAttempts, o.code.value.expiresAt - o.attempts.value.expiresAt)
  }

  /** A stored counter never exceeds the maximum, live or not. */
  predicate Sound(o: Otp, maxAttempts: nat) {
    o.attempts.Some? ==> 1 <= o.attempts.value.value <= maxAttempts
  }

  lemma {:induction false} AlwaysSound(ops: seq<Op>, n: nat, maxAttempts: nat)
    requires n <= |ops|
    ensures Sound(After(ops, n, maxAttempts), maxAttempts)
  {
    if n > 0 { AlwaysSound(ops, n - 1, maxAttempts); }
  }

  lemma BudgetShrinks(o: Otp, now: int, later: int, maxAttempts: nat)
    requires Sound(o, maxAttempts) && now <= later
    ensures 0 <= Budget(o, later, maxAttempts) <= Budget(o, now, maxAttempts)
  {
    if LiveAt(o.code, later).Some? {
      var e := o.code.value.expiresAt;
      if AttemptsAt(o, now) == 0 { FullMonotone(maxAttempts, e - later, e - now); }
      else if o.attempts.value.expiresAt <= later {
        FullMonotone(maxAttempts, e - later, e - o.attempts.value.expiresAt);
      }
    }
  }

  lemma ClaimSpends(o: Otp, now: int, guess: string, maxAttempts: nat)
    ensures Sound(o, maxAttempts) ==>
            var (after, result) := ClaimOtp(o, now, guess, maxAttempts);
            Budget(after, now, maxAttempts) + (if result == Accepted || result == Wrong then 1 else 0)
            <= Budget(o, now, maxAttempts)
  {
  }

  lemma {:induction false} ComparisonsWithinBudget(ops: seq<Op>, i: nat, n: nat, maxAttempts: nat)
    requires Ordered(ops) && SavedAt(ops, i, n)
    ensures Comparisons(ops, i, n, maxAttempts) + Budget(After(ops, n, maxAttempts), ops[n - 1].at, maxAttempts)
         <= Budget(After(ops, i + 1, maxAttempts), ops[i].at, maxAttempts)
    decreases n
  {
    if n > i + 1 {
      ComparisonsWithinBudget(ops, i, n - 1, maxAttempts);
      var o := After(ops, n - 1, maxAttempts);
      AlwaysSound(ops, n - 1, maxAttempts);
      BudgetShrinks(o, ops[n - 2].at, ops[n - 1].at, maxAttempts);
      ClaimSpends(o, ops[n - 1].at, ops[n - 1].guess, maxAttempts);
    }
  }

  /**
   * The most guesses a code saved now can meet: the counter lifetimes it spans, or what is left of a live counter and
   * the lifetimes after it.
   */
  function MostGuesses(o: Otp, at: int, ttl: int, maxAttempts: nat): int {
    if ttl <= 0 then 0
    else if AttemptsAt(o, at) == 0 then Full(maxAttempts, ttl)
    else maxAttempts - AttemptsAt(o, at) + Full(maxAttempts, at + ttl - o.attempts.value.expiresAt)
  }

  lemma BudgetOfSave(o: Otp, at: int, code: string, ttl: int, maxAttempts: nat)
    ensures Budget(SaveOtp(o, at, code, ttl), at, maxAttempts) == MostGuesses(o, at, ttl, maxAttempts)
  {
  }

  /** The bound for every trace, every code lifetime and every counter found at the save. */
  lemma GuessesPerCode(ops: seq<Op>, i: nat, n: nat, maxAttempts: nat)
    requires Ordered(ops) && SavedAt(ops, i, n)
    ensures Comparisons(ops, i, n, maxAttempts)
         <= MostGuesses(After(ops, i, maxAttempts), ops[i].at, ops[i].ttl, maxAttempts)
  {
    ComparisonsWithinBudget(ops, i, n, maxAttempts);
    AlwaysSound(ops, n, maxAttempts);
    BudgetShrinks(After(ops, n, maxAttempts), ops[n - 1].at, ops[n - 1].at, maxAttempts);
    BudgetOfSave(After(ops, i, maxAttempts), ops[i].at, ops[i].code, ops[i].ttl, maxAttempts);
  }

  lemma FullOfShort(maxAttempts: nat, d: int)
    requires d <= OTP_TTL_SECONDS
    ensures Full(maxAttempts, d) == if d <= 0 then 0 else maxAttempts
  {
    assert d > 0 ==> Full(maxAttempts, d) == maxAttempts + Full(maxAttempts, d - OTP_TTL_SECONDS);
  }

  /**
   * Codes that live no longer than a counter: 2 * maxAttempts - 1 comparisons, and maxAttempts when no counter was
   * live at the save.
   */
  lemma GuessesPerShortCode(ops: seq<Op>, i: nat, n: nat, maxAttempts: nat)
    requires Ordered(ops) && SavedAt(ops, i, n) && ops[i].ttl <= OTP_TTL_SECONDS
    ensures AttemptsAt(After(ops, i, maxAttempts), ops[i].at) == 0 ==>
            Comparisons(ops, i, n, maxAttempts) <= maxAttempts
    ensures maxAttempts > 0 ==> Comparisons(ops, i, n, maxAttempts) <= 2 * maxAttempts - 1
    ensures maxAttempts == 0 ==> Comparisons(ops, i, n, maxAttempts) == 0
  {
    GuessesPerCode(ops, i, n, maxAttempts);
    AlwaysSound(ops, i, maxAttempts);
    FullOfShort(maxAttempts, ops[i].ttl);
    var o := After(ops, i, maxAttempts);
    if AttemptsAt(o, ops[i].at) != 0 { FullOfShort(maxAttempts, ops[i].at + ops[i].ttl - o.attempts.value.expiresAt); }
  }

  // ---------------------------------------------------------------- the bound is met

  predicate AllClaims(claims: seq<Op>) {
    forall k :: 0 <= k < |claims| ==> claims[k].Claim?
  }

  function AfterClaims(o: Otp, claims: seq<Op>, maxAttempts: nat): Otp
    requires AllClaims(claims)
    decreases |claims|
  {
    if claims == [] then o
    else AfterClaims(ClaimOtp(o, claims[0].at, claims[0].guess, maxAttempts).0, claims[1..], maxAttempts)
  }

  /** How many of the claims are compared, from this state on. */
  function CountFrom(o: Otp, claims: seq<Op>, maxAttempts: nat): nat
    requires AllClaims(claims)
    decreases |claims|
  {
    if claims == [] then 0
    else
      var (next, result) := ClaimOtp(o, claims[0].at, claims[0].guess, maxAttempts);
      (if result == Accepted || result == Wrong then 1 else 0) + CountFrom(next, claims[1..], maxAttempts)
  }

  lemma {:induction false} CountSplits(o: Otp, a: seq<Op>, b: seq<Op>, maxAttempts: nat)
    requires AllClaims(a) && AllClaims(b)
    ensures AllClaims(a + b) &&
            CountFrom(o, a + b, maxAttempts) ==
            CountFrom(o, a, maxAttempts) + CountFrom(AfterClaims(o, a, maxAttempts), b, maxAttempts)
    decreases |a|
  {
    if a == [] {
      assert a + b == b;
    } else {
      assert (a + b)[1..] == a[1..] + b;
      CountSplits(ClaimOtp(o, a[0].at, a[0].guess, maxAttempts).0, a[1..], b, maxAttempts);
    }
  }

  /** n claims at one moment. */
  function Repeated(at: int, guess: string, n: nat): (claims: seq<Op>)
    ensures |claims| == n && forall k :: 0 <= k < n ==> claims[k] == Claim(at, guess)
  {
    if n == 0 then [] else [Claim(at, guess)] + Repeated(at, guess, n - 1)
  }

  /** maxAttempts claims now and again whenever the counter they start has run out, while the code lives. */
  function Waves(at: int, deadline: int, guess: string, maxAttempts: nat): (claims: seq<Op>)
    ensures AllClaims(claims)
    decreases deadline - at
  {
    if deadline <= at then []
    else Repeated(at, guess, maxAttempts) + Waves(at + OTP_TTL_SECONDS, deadline, guess, maxAttempts)
  }

  /** The claims that use up a stored code's whole budget. */
  function WorstClaims(o: Otp, now: int, guess: string, maxAttempts: nat): (claims: seq<Op>)
    requires Sound(o, maxAttempts)
    ensures AllClaims(claims)
  {
    if LiveAt(o.code, now).None? then []
    else if AttemptsAt(o, now) == 0 then Waves(now, o.code.value.expiresAt, guess, maxAttempts)
    else
      Repeated(now, guess, maxAttempts - AttemptsAt(o, now)) +
        Waves(o.attempts.value.expiresAt, o.code.value.expiresAt, guess, maxAttempts)
  }

  lemma {:induction false} RepeatedCount(o: Otp, at: int, guess: string, n: nat, maxAttempts: nat)
    requires LiveAt(o.code, at).Some? && o.code.value.value != guess && AttemptsAt(o, at) + n <= maxAttempts
    ensures CountFrom(o, Repeated(at, guess, n), maxAttempts) == n
    ensures AfterClaims(o, Repeated(at, guess, n), maxAttempts) ==
            if n == 0 then o else o.(attempts := Some(Timed(AttemptsAt(o, at) + n, Counted(o, at).expiresAt)))
    decreases n
  {
    if n > 0 {
      var next := o.(attempts := Some(Counted(o, at)));
      assert ClaimOtp(o, at, guess, maxAttempts) == (next, Wrong);
      assert Repeated(at, guess, n)[1..] == Repeated(at, guess, n - 1);
      if n > 1 { RepeatedCount(next, at, guess, n - 1, maxAttempts); }
    }
  }

  lemma {:induction false} WavesCount(o: Otp, at: int, guess: string, maxAttempts: nat)
    requires o.code.Some? && o.code.value.value != guess && AttemptsAt(o, at) == 0
    ensures CountFrom(o, Waves(at, o.code.value.expiresAt, guess, maxAttempts), maxAttempts) ==
            Full(maxAttempts, o.code.value.expiresAt - at)
    decreases o.code.value.expiresAt - at
  {
    var e := o.code.value.expiresAt;
    if at < e {
      var wave := Repeated(at, guess, maxAttempts);
      RepeatedCount(o, at, guess, maxAttempts, maxAttempts);
      var next := AfterClaims(o, wave, maxAttempts);
      WavesCount(next, at + OTP_TTL_SECONDS, guess, maxAttempts);
      CountSplits(o, wave, Waves(at + OTP_TTL_SECONDS, e, guess, maxAttempts), maxAttempts);
    }
  }

  /** Wrong claims made at those moments are compared as often as the budget allows. */
  lemma WorstCount(o: Otp, now: int, guess: string, maxAttempts: nat)
    requires Sound(o, maxAttempts) && o.code.Some? && o.code.value.value != guess
    ensures CountFrom(o, WorstClaims(o, now, guess, maxAttempts), maxAttempts) == Budget(o, now, maxAttempts)
  {
    if LiveAt(o.code, now).Some? {
      if AttemptsAt(o, now) == 0 {
        WavesCount(o, now, guess, maxAttempts);
      } else {
        var first := Repeated(now, guess, maxAttempts - AttemptsAt(o, now));
        var x := o.attempts.value.expiresAt;
        RepeatedCount(o, now, guess, maxAttempts - AttemptsAt(o, now), maxAttempts);
        WavesCount(AfterClaims(o, first, maxAttempts), x, guess, maxAttempts);
        CountSplits(o, first, Waves(x, o.code.value.expiresAt, guess, maxAttempts), maxAttempts);
      }
    }
  }

  lemma {:induction false} WavesOrdered(at: int, deadline: int, guess: string, maxAttempts: nat)
    ensures Ordered(Waves(at, deadline, guess, maxAttempts))
    ensures forall k ::
            0 <= k < |Waves(at, deadline, guess, maxAttempts)| ==> Waves(at, deadline, guess, maxAttempts)[k].at >= at
    decreases deadline - at
  {
    if at < deadline { WavesOrdered(at + OTP_TTL_SECONDS, deadline, guess, maxAttempts); }
  }

  lemma WorstOrdered(ops: seq<Op>, o: Otp, now: int, guess: string, maxAttempts: nat)
    requires Sound(o, maxAttempts) && Ordered(ops) && forall k :: 0 <= k < |ops| ==> ops[k].at <= now
    ensures Ordered(ops + WorstClaims(o, now, guess, maxAttempts))
  {
    if LiveAt(o.code, now).Some? {
      if AttemptsAt(o, now) == 0 { WavesOrdered(now, o.code.value.expiresAt, guess, maxAttempts); }
      else { WavesOrdered(o.attempts.value.expiresAt, o.code.value.expiresAt, guess, maxAttempts); }
    }
  }

  // ---------------------------------------------------------------- traces carried on

  lemma {:induction false} PrefixSame(ops: seq<Op>, more: seq<Op>, n: nat, maxAttempts: nat)
    requires n <= |ops|
    ensures After(ops + more, n, maxAttempts) == After(ops, n, maxAttempts)
  {
    if n > 0 {
      PrefixSame(ops, more, n - 1, maxAttempts);
      assert (ops + more)[n - 1] == ops[n - 1];
    }
  }

  /** Claims after a save are counted from the state the save leaves. */
  lemma {:induction false} ComparisonsCarryOn(ops: seq<Op>, i: nat, n: nat, maxAttempts: nat)
    requires SavedAt(ops, i, n)
    ensures AllClaims(ops[i + 1..n])
    ensures Comparisons(ops, i, n, maxAttempts) == CountFrom(After(ops, i + 1, maxAttempts), ops[i + 1..n], maxAttempts)
    ensures After(ops, n, maxAttempts) == AfterClaims(After(ops, i + 1, maxAttempts), ops[i + 1..n], maxAttempts)
    decreases n
  {
    if n > i + 1 {
      ComparisonsCarryOn(ops, i, n - 1, maxAttempts);
      var o := After(ops, i + 1, maxAttempts);
      assert ops[i + 1..n] == ops[i + 1..n - 1] + [ops[n - 1]];
      CountSplits(o, ops[i + 1..n - 1], [ops[n - 1]], maxAttempts);
      AfterSplits(o, ops[i + 1..n - 1], ops[n - 1], maxAttempts);
    }
  }

  lemma {:induction false} AfterSplits(o: Otp, claims: seq<Op>, last: Op, maxAttempts: nat)
    requires AllClaims(claims) && last.Claim?
    ensures AfterClaims(o, claims + [last], maxAttempts) ==
            ClaimOtp(AfterClaims(o, claims, maxAttempts), last.at, last.guess, maxAttempts).0
    ensures CountFrom(AfterClaims(o, claims, maxAttempts), [last], maxAttempts) ==
            var r := ClaimOtp(AfterClaims(o, claims, maxAttempts), last.at, last.guess, maxAttempts).1;
            if r == Accepted || r == Wrong then 1 else 0
    decreases |claims|
  {
    if claims != [] {
      assert (claims + [last])[1..] == claims[1..] + [last];
      AfterSplits(ClaimOtp(o, claims[0].at, claims[0].guess, maxAttempts).0, claims[1..], last, maxAttempts);
    }
  }

  /** The trace goes on with claims only. */
  predicate GoesOn(ops: seq<Op>, more: seq<Op>) {
    ops != [] && ops[|ops| - 1].Save? && AllClaims(more) && Ordered(ops + more)
  }

  function GuessesIn(ops: seq<Op>, more: seq<Op>, maxAttempts: nat): nat
    requires GoesOn(ops, more)
  {
    Comparisons(ops + more, |ops| - 1, |ops + more|, maxAttempts)
  }

  /** The bound is the maximum: after any trace ending in a save, it is met by some claims and exceeded by none. */
  lemma MostGuessesReached(ops: seq<Op>, guess: string, maxAttempts: nat)
    requires Ordered(ops) && ops != [] && ops[|ops| - 1].Save? && ops[|ops| - 1].code != guess
    ensures var last := ops[|ops| - 1];
            var most := MostGuesses(After(ops, |ops| - 1, maxAttempts), last.at, last.ttl, maxAttempts);
            && (exists more :: GoesOn(ops, more) && GuessesIn(ops, more, maxAttempts) == most)
            && (forall more :: GoesOn(ops, more) ==> GuessesIn(ops, more, maxAttempts) <= most)
  {
    var n := |ops|;
    var last := ops[n - 1];
    var o := After(ops, n, maxAttempts);
    AlwaysSound(ops, n, maxAttempts);
    var worst := WorstClaims(o, last.at, guess, maxAttempts);
    WorstOrdered(ops, o, last.at, guess, maxAttempts);
    WorstCount(o, last.at, guess, maxAttempts);
    BudgetOfSave(After(ops, n - 1, maxAttempts), last.at, last.code, last.ttl, maxAttempts);
    GuessesAre(ops, worst, maxAttempts);
    forall more | GoesOn(ops, more)
      ensures GuessesIn(ops, more, maxAttempts) <= MostGuesses(After(ops, n - 1, maxAttempts), last.at, last.ttl,
              maxAttempts)
    {
      PrefixSame(ops, more, n - 1, maxAttempts);
      GuessesPerCode(ops + more, n - 1, |ops + more|, maxAttempts);
    }
  }

  lemma GuessesAre(ops: seq<Op>, more: seq<Op>, maxAttempts: nat)
    requires GoesOn(ops, more)
    ensures GuessesIn(ops, more, maxAttempts) == CountFrom(After(ops, |ops|, maxAttempts), more, maxAttempts)
  {
    PrefixSame(ops, more, |ops|, maxAttempts);
    ComparisonsCarryOn(ops + more, |ops| - 1, |ops + more|, maxAttempts);
    assert (ops + more)[|ops|..|ops + more|] == more;
  }

  /**
   * The exact condition, to be checked at the save of a code that lives no longer than a counter: it can meet more than
   * maxAttempts guesses if and only if a counter that still has attempts left is live and runs out before the code.
   */
  lemma MoreThanMaxIff(ops: seq<Op>, guess: string, maxAttempts: nat)
    requires Ordered(ops) && ops != [] && ops[|ops| - 1].Save? && ops[|ops| - 1].code != guess
    requires ops[|ops| - 1].ttl <= OTP_TTL_SECONDS
    ensures var last := ops[|ops| - 1];
            var o := After(ops, |ops| - 1, maxAttempts);
            (exists more :: GoesOn(ops, more) && GuessesIn(ops, more, maxAttempts) > maxAttempts) <==>
            1 <= AttemptsAt(o, last.at) < maxAttempts && o.attempts.value.expiresAt < last.at + last.ttl
  {
    var last := ops[|ops| - 1];
    var o := After(ops, |ops| - 1, maxAttempts);
    MostGuessesReached(ops, guess, maxAttempts);
    AlwaysSound(ops, |ops| - 1, maxAttempts);
    FullOfShort(maxAttempts, last.ttl);
    if AttemptsAt(o, last.at) != 0 { FullOfShort(maxAttempts, last.at + last.ttl - o.attempts.value.expiresAt); }
  }

  /** A counter born under one code, and a second code saved one second before that counter runs out. */
  function SecondCode(first: string, second: string, guess: string): seq<Op> {
    [Save(0, first, OTP_TTL_SECONDS), Claim(0, guess), Save(OTP_TTL_SECONDS - 1, second, OTP_TTL_SECONDS)]
  }

  /** For every maximum of at least 1 a code of the usual lifetime can meet 2 * maxAttempts - 1 wrong guesses. */
  lemma BoundIsTight(first: string, second: string, guess: string, maxAttempts: nat)
    requires maxAttempts > 0 && guess != first && guess != second
    ensures var ops := SecondCode(first, second, guess);
            exists more :: GoesOn(ops, more) && GuessesIn(ops, more, maxAttempts) == 2 * maxAttempts - 1
  {
    var ops := SecondCode(first, second, guess);
    assert After(ops, 1, maxAttempts) == Otp(Some(Timed(first, OTP_TTL_SECONDS)), None);
    assert After(ops, 2, maxAttempts) == Otp(Some(Timed(first, OTP_TTL_SECONDS)), Some(Timed(1, OTP_TTL_SECONDS)));
    MostGuessesReached(ops, guess, maxAttempts);
    FullOfShort(maxAttempts, OTP_TTL_SECONDS - 1);
  }
}
