/** One-time codes: the save and claim operations on one account's two keys, and the store that runs them. */
module OtpStore {
  import opened Tables
  import opened KeyValue

  const OTP_TTL_SECONDS: int := 15 * 60
  const OTP_MAX_ATTEMPTS: nat := 5

  /** A value with the moment it stops being live. */
  datatype Timed<T> = Timed(value: T, expiresAt: int)

  function LiveAt<T>(slot: Option<Timed<T>>, now: int): Option<T> {
    if slot.Some? && now < slot.value.expiresAt then Some(slot.value.value) else None
  }

  /** The code key and the attempts key of one scope and email. */
  datatype Otp = Otp(code: Option<Timed<string>>, attempts: Option<Timed<nat>>)

  datatype ClaimResult = Absent | Accepted | Wrong | MaxAttempts

  function SaveOtp(o: Otp, now: int, code: string, ttl: int): Otp {
    o.(code := Some(Timed(code, now + ttl)))
  }

  function AttemptsAt(o: Otp, now: int): nat {
    match LiveAt(o.attempts, now) case None => 0 case Some(n) => n
  }

  /** The attempts key as the next claim leaves it: a live counter keeps its deadline, a new one gets a full TTL. */
  function Counted(o: Otp, now: int): Timed<nat> {
    Timed(AttemptsAt(o, now) + 1, if AttemptsAt(o, now) == 0 then now + OTP_TTL_SECONDS else o.attempts.value.expiresAt)
  }

  function ClaimOtp(o: Otp, now: int, guess: string, maxAttempts: nat): (Otp, ClaimResult) {
    match LiveAt(o.code, now)
    case None => (o, Absent)
    case Some(stored) =>
      if Counted(o, now).value > maxAttempts then (Otp(None, None), MaxAttempts)
      else if stored == guess then (Otp(None, None), Accepted)
      else (o.(attempts := Some(Counted(o, now))), Wrong)
  }

  // ---------------------------------------------------------------- keys

  datatype Scope = Verify | Reset

  function ScopeText(scope: Scope): string {
    match scope case Verify => "verify" case Reset => "reset"
  }

  /** Keys are built from emails in lower case; which text that is, is up to toLowerCase. */
  type Lowering = string -> string

  function CodeKey(scope: Scope, email: string): string {
    "auth:otp:" + ScopeText(scope) + ":" + email
  }

  function AttemptsKey(scope: Scope, email: string): string {
    "auth:otp:attempts:" + ScopeText(scope) + ":" + email
  }

  /** Two accounts share a key only when they have the same scope and email, and codes never share one with counters. */
  lemma KeysDistinct(scope: Scope, email: string, scope': Scope, email': string)
    ensures CodeKey(scope, email) == CodeKey(scope', email') <==> scope == scope' && email == email'
    ensures AttemptsKey(scope, email) == AttemptsKey(scope', email') <==> scope == scope' && email == email'
    ensures CodeKey(scope, email) != AttemptsKey(scope', email')
  {
    var code, code' := CodeKey(scope, email), CodeKey(scope', email');
    var attempts, attempts' := AttemptsKey(scope, email), AttemptsKey(scope', email');
    assert code[9] == ScopeText(scope)[0] && code'[9] == ScopeText(scope')[0] && attempts'[9] == 'a';
    assert attempts[18] == ScopeText(scope)[0] && attempts'[18] == ScopeText(scope')[0];
    var n := |ScopeText(scope)|;
    assert code[10 + n..] == email && attempts[19 + n..] == email;
    if scope == scope' {
      assert code'[10 + n..] == email' && attempts'[19 + n..] == email';
    }
  }

  function SlotText(entries: map<string, Entry>, key: string): Option<Timed<string>> {
    if key in entries && entries[key].value.Text? && entries[key].expiresAt.Some?
    then Some(Timed(entries[key].value.text, entries[key].expiresAt.value)) else None
  }

  function SlotNumber(entries: map<string, Entry>, key: string): Option<Timed<nat>> {
    if key in entries && entries[key].value.Number? && entries[key].expiresAt.Some?
    then Some(Timed(entries[key].value.count, entries[key].expiresAt.value)) else None
  }

  function View(entries: map<string, Entry>, scope: Scope, email: string): Otp {
    Otp(SlotText(entries, CodeKey(scope, email)), SlotNumber(entries, AttemptsKey(scope, email)))
  }

  /** What save and claim keep: code keys hold texts, attempts keys hold numbers, and both have deadlines. */
  ghost predicate WellTyped(entries: map<string, Entry>) {
    forall scope, email ::
      && (CodeKey(scope, email) in entries ==> SlotText(entries, CodeKey(scope, email)).Some?)
      && (AttemptsKey(scope, email) in entries ==> SlotNumber(entries, AttemptsKey(scope, email)).Some?)
  }

  /** Every account but the given one has the same view. */
  ghost predicate OthersSame(before: map<string, Entry>, after: map<string, Entry>, scope: Scope, email: string) {
    forall scope', email' ::
        scope' != scope || email' != email ==> View(after, scope', email') == View(before, scope', email')
  }

  class RedisOtpStore {
    const redis: Redis
    const lower: Lowering

    constructor (redis: Redis, lower: Lowering)
      ensures this.redis == redis && this.lower == lower
    {
      this.redis, this.lower := redis, lower;
    }

    method Save(scope: Scope, email: string, code: string, ttlSeconds: int)
      requires WellTyped(redis.entries)
      modifies redis`entries
      ensures WellTyped(redis.entries)
      ensures View(redis.entries, scope, lower(email)) ==
              SaveOtp(View(old(redis.entries), scope, lower(email)), redis.now, code, ttlSeconds)
      ensures OthersSame(old(redis.entries), redis.entries, scope, lower(email))
    {
      redis.SetEx(CodeKey(scope, lower(email)), Text(code), ttlSeconds);
      OnlyOwnKeys(old(redis.entries), redis.entries, scope, lower(email));
    }

    /** The claim script on the account's keys, atomic as a whole. */
    method Claim(scope: Scope, email: string, guess: string, maxAttempts: nat) returns (result: ClaimResult)
      requires WellTyped(redis.entries)
      modifies redis`entries
      ensures WellTyped(redis.entries)
      ensures (View(redis.entries, scope, lower(email)), result) ==
              ClaimOtp(View(old(redis.entries), scope, lower(email)), redis.now, guess, maxAttempts)
      ensures OthersSame(old(redis.entries), redis.entries, scope, lower(email))
    {
      KeysDistinct(scope, lower(email), scope, lower(email));
      result := RunClaim(CodeKey(scope, lower(email)), AttemptsKey(scope, lower(email)), guess, maxAttempts);
      OnlyOwnKeys(old(redis.entries), redis.entries, scope, lower(email));
    }

    /** The script, command by command. */
    method RunClaim(codeKey: string, attemptsKey: string, guess: string, maxAttempts: nat) returns (result: ClaimResult)
      requires codeKey != attemptsKey
      requires codeKey in redis.entries ==> SlotText(redis.entries, codeKey).Some?
      requires attemptsKey in redis.entries ==> SlotNumber(redis.entries, attemptsKey).Some?
      modifies redis`entries
      ensures codeKey in redis.entries ==> SlotText(redis.entries, codeKey).Some?
      ensures attemptsKey in redis.entries ==> SlotNumber(redis.entries, attemptsKey).Some?
      ensures (Otp(SlotText(redis.entries, codeKey), SlotNumber(redis.entries, attemptsKey)), result) ==
              ClaimOtp(Otp(SlotText(old(redis.entries), codeKey), SlotNumber(old(redis.entries), attemptsKey)),
                  redis.now, guess, maxAttempts)
      ensures redis.entries - {codeKey, attemptsKey} == old(redis.entries) - {codeKey, attemptsKey}
    {
      var stored := redis.Get(codeKey);
      if stored.None? {
        return Absent;
      }
      var attempts := redis.Incr(attemptsKey);
      if attempts == 1 {
        redis.Expire(attemptsKey, OTP_TTL_SECONDS);
      }
      if attempts > maxAttempts {
        redis.Del(codeKey);
        redis.Del(attemptsKey);
        return MaxAttempts;
      }
      if stored == Some(Text(guess)) {
        redis.Del(codeKey);
        redis.Del(attemptsKey);
        return Accepted;
      }
      return Wrong;
    }
  }

  /** Changing only one account's two keys keeps the other accounts' views. */
  lemma OnlyOwnKeys(before: map<string, Entry>, after: map<string, Entry>, scope: Scope, email: string)
    requires WellTyped(before)
    requires CodeKey(scope, email) in after ==> SlotText(after, CodeKey(scope, email)).Some?
    requires AttemptsKey(scope, email) in after ==> SlotNumber(after, AttemptsKey(scope, email)).Some?
    requires after - {CodeKey(scope, email), AttemptsKey(scope, email)} ==
            before - {CodeKey(scope, email), AttemptsKey(scope, email)}
    ensures WellTyped(after) && OthersSame(before, after, scope, email)
  {
    var own := {CodeKey(scope, email), AttemptsKey(scope, email)};
    forall key | key !in own ensures (key in after <==> key in before) && (key in after ==> after[key] == before[key]) {
      assert key in after - own <==> key in before - own;
      assert key in after ==> (after - own)[key] == after[key];
      assert key in before ==> (before - own)[key] == before[key];
    }
    forall scope', email'
      ensures CodeKey(scope', email') in after ==> SlotText(after, CodeKey(scope', email')).Some?
      ensures AttemptsKey(scope', email') in after ==> SlotNumber(after, AttemptsKey(scope', email')).Some?
      ensures scope' != scope || email' != email ==> View(after, scope', email') == View(before, scope', email')
    {
      KeysDistinct(scope', email', scope, email);
      KeysDistinct(scope, email, scope', email');
    }
  }
}
