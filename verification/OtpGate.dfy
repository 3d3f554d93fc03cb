/**
 * The one-time-code endpoints of one email behind the two rate limiters, each request's check and claim taken at one
 * instant.
 */
module OtpGate {
  import opened Tables
  import opened KeyValue
  import opened OtpStore
  import opened RateLimiter

  const OTP_RATE_LIMIT_WINDOW_SECONDS: int := 15 * 60
  const OTP_RATE_LIMIT_MAX_PER_IP: nat := 10
  const OTP_RATE_LIMIT_MAX_PER_EMAIL: nat := 5

  // ---------------------------------------------------------------- the middleware

  function IpKey(ip: string): string {
    "security:otp:ip:" + ip
  }

  function EmailKey(email: string): string {
    "security:otp:email:" + email
  }

  /** One counter per address and one per email. */
  lemma GateKeysDistinct(text: string, text': string)
    ensures IpKey(text) == IpKey(text') <==> text == text'
    ensures EmailKey(text) == EmailKey(text') <==> text == text'
    ensures IpKey(text) != EmailKey(text')
  {
    assert IpKey(text)[16..] == text && IpKey(text')[16..] == text';
    assert EmailKey(text)[19..] == text && EmailKey(text')[19..] == text';
    assert IpKey(text)[13] == 'i' && EmailKey(text')[13] == 'e';
  }

  predicate SameAt(before: map<string, Entry>, after: map<string, Entry>, key: string) {
    (key in after <==> key in before) && (key in after ==> after[key] == before[key])
  }

  class OtpRateLimit {
    const redis: Redis
    const limiter: Limiter
    const lower: Lowering

    constructor (redis: Redis, lower: Lowering)
      ensures this.redis == redis && this.lower == lower && limiter.redis == redis
    {
      this.redis, this.lower := redis, lower;
      this.limiter := new Limiter(redis);
    }

    /**
     * The address is counted first, the email only when the address passes and the body has a non-empty one; both in
     * windows of 900 seconds. The counters of all other addresses and emails stay as they were.
     */
    method Check(ip: string, email: Option<string>) returns (passed: bool)
      requires limiter.redis == redis
      requires IpKey(lower(ip)) in redis.entries ==> SlotNumber(redis.entries, IpKey(lower(ip))).Some?
      requires email.Some? && lower(email.value) != "" && EmailKey(lower(email.value)) in redis.entries ==>
                 SlotNumber(redis.entries, EmailKey(lower(email.value))).Some?
      modifies redis`entries
      ensures var (before, given) := (old(redis.entries), email.Some? && lower(email.value) != "");
              var ipHit := Hit(SlotNumber(before, "security:otp:ip:" + lower(ip)), redis.now, 900);
              var emailKey := if given then "security:otp:email:" + lower(email.value) else "";
              var emailHit := Hit(SlotNumber(before, emailKey), redis.now, 900);
              && (passed <==> ipHit.value <= 10 && (given ==> emailHit.value <= 5))
              && SlotNumber(redis.entries, "security:otp:ip:" + lower(ip)) == Some(ipHit)
              && (given ==> SlotNumber(redis.entries, emailKey) ==
                            if ipHit.value <= 10 then Some(emailHit) else SlotNumber(before, emailKey))
      ensures forall key :: key != IpKey(lower(ip)) && !(email.Some? && key == EmailKey(lower(email.value))) ==>
                SameAt(old(redis.entries), redis.entries, key)
      ensures forall other :: other != lower(ip) ==> SameAt(old(redis.entries), redis.entries, IpKey(other))
      ensures forall other :: email.None? || other != lower(email.value) ==>
                SameAt(old(redis.entries), redis.entries, EmailKey(other))
    {
      var ipKey := IpKey(lower(ip));
      forall other ensures other != lower(ip) ==> IpKey(other) != ipKey { GateKeysDistinct(other, lower(ip)); }
      if email.Some? {
        forall other ensures other != lower(email.value) ==> EmailKey(other) != EmailKey(lower(email.value)) {
          GateKeysDistinct(other, lower(email.value));
        }
      }
      forall a, e ensures IpKey(a) != EmailKey(e) { GateKeysDistinct(a, e); }
      var limited := limiter.IsRateLimited(ipKey, OTP_RATE_LIMIT_MAX_PER_IP, OTP_RATE_LIMIT_WINDOW_SECONDS);
      SameBut(old(redis.entries), redis.entries, ipKey);
      assert email.Some? ==> SameAt(old(redis.entries), redis.entries, EmailKey(lower(email.value)));
      if limited {
        return false;
      }
      if email.Some? && lower(email.value) != "" {
        ghost var between := redis.entries;
        var emailKey := EmailKey(lower(email.value));
        limited := limiter.IsRateLimited(emailKey, OTP_RATE_LIMIT_MAX_PER_EMAIL, OTP_RATE_LIMIT_WINDOW_SECONDS);
        SameBut(between, redis.entries, emailKey);
        assert SameAt(between, redis.entries, ipKey);
        forall key | key != ipKey && key != emailKey ensures SameAt(old(redis.entries), redis.entries, key) {
          assert SameAt(old(redis.entries), between, key) && SameAt(between, redis.entries, key);
        }
        return !limited;
      }
      return true;
    }
  }

  lemma SameBut(before: map<string, Entry>, after: map<string, Entry>, changed: string)
    requires after - {changed} == before - {changed}
    ensures forall key :: key != changed ==> SameAt(before, after, key)
  {
    forall key | key != changed ensures SameAt(before, after, key) {
      assert key in before <==> key in before - {changed};
      assert key in after <==> key in after - {changed};
      assert key in before ==> before[key] == (before - {changed})[key];
      assert key in after ==> after[key] == (after - {changed})[key];
    }
  }

  // ---------------------------------------------------------------- requests about one email

  /** What an admitted request does; Nothing covers failed validation, an unknown account and the resend cooldown. */
  datatype Action =
    | VerifyEmail(guess: string)
    | ResetPassword(guess: string)
    | ResendVerification(code: string)
    | ForgotPassword(code: string)
    | Nothing

  /** Registration saves a code without passing the limiters; Elsewhere is a request about another email. */
  datatype Request =
    | Register(at: int, code: string)
    | Limited(at: int, ip: string, action: Action)
    | Elsewhere(at: int, ip: string)

  datatype Gate = Gate(ips: map<string, Timed<nat>>, email: Option<Timed<nat>>, codes: map<Scope, Otp>)

  function CodesOf(g: Gate, scope: Scope): Otp {
    if scope in g.codes then g.codes[scope] else Otp(None, None)
  }

  function IpSlot(g: Gate, ip: string): Option<Timed<nat>> {
    if ip in g.ips then Some(g.ips[ip]) else None
  }

  function CountIp(g: Gate, at: int, ip: string): Gate {
    g.(ips := g.ips[ip := Hit(IpSlot(g, ip), at, OTP_RATE_LIMIT_WINDOW_SECONDS)])
  }

  /** The limiters' part of a request: the new counters and whether it is let through. */
  function Admit(g: Gate, at: int, ip: string): (Gate, bool) {
    var counted := CountIp(g, at, ip);
    if counted.ips[ip].value > OTP_RATE_LIMIT_MAX_PER_IP then (counted, false)
    else
      var hit := Hit(g.email, at, OTP_RATE_LIMIT_WINDOW_SECONDS);
      (counted.(email := Some(hit)), hit.value <= OTP_RATE_LIMIT_MAX_PER_EMAIL)
  }

  /** The model's limiters are the middleware's: its answer and the counters it leaves are those of `Check`. */
  lemma AdmitIsCheck(g: Gate, at: int, ip: string)
    ensures var (after, passed) := Admit(g, at, ip);
            var (ipHit, emailHit) := (Hit(IpSlot(g, ip), at, 900), Hit(g.email, at, 900));
            && (passed <==> ipHit.value <= 10 && emailHit.value <= 5)
            && IpSlot(after, ip) == Some(ipHit)
            && after.email == (if ipHit.value <= 10 then Some(emailHit) else g.email)
            && (forall other :: other != ip ==> IpSlot(after, other) == IpSlot(g, other)) && after.codes == g.codes
    ensures var after := Serve(g, Elsewhere(at, ip));
            && IpSlot(after, ip) == Some(Hit(IpSlot(g, ip), at, 900))
            && (forall other :: other != ip ==> IpSlot(after, other) == IpSlot(g, other))
            && after.email == g.email && after.codes == g.codes
  {
  }

  function SaveIn(g: Gate, at: int, scope: Scope, code: string): Gate {
    g.(codes := g.codes[scope := SaveOtp(CodesOf(g, scope), at, code, OTP_TTL_SECONDS)])
  }

  function ClaimIn(g: Gate, at: int, scope: Scope, guess: string): Gate {
    g.(codes := g.codes[scope := ClaimOtp(CodesOf(g, scope), at, guess, OTP_MAX_ATTEMPTS).0])
  }

  function Act(g: Gate, at: int, action: Action): Gate {
    match action
    case VerifyEmail(guess) => ClaimIn(g, at, Verify, guess)
    case ResetPassword(guess) => ClaimIn(g, at, Reset, guess)
    case ResendVerification(code) => SaveIn(g, at, Verify, code)
    case ForgotPassword(code) => SaveIn(g, at, Reset, code)
    case Nothing => g
  }

  function Serve(g: Gate, r: Request): Gate {
    match r
    case Register(at, code) => SaveIn(g, at, Verify, code)
    case Limited(at, ip, action) =>
      var (counted, passed) := Admit(g, at, ip);
      if passed then Act(counted, at, action) else counted
    case Elsewhere(at, ip) => CountIp(g, at, ip)
  }

  // ---------------------------------------------------------------- what a request means for one scope

  predicate Passes(g: Gate, r: Request) {
    r.Limited? && Admit(g, r.at, r.ip).1
  }

  /** The request saves a new code of the scope. */
  predicate Saves(g: Gate, r: Request, scope: Scope) {
    || (r.Register? && scope == Verify)
    || (Passes(g, r) && r.action.ResendVerification? && scope == Verify)
    || (Passes(g, r) && r.action.ForgotPassword? && scope == Reset)
  }

  /** The guess the request makes at the scope's code, if it gets that far. */
  function GuessAt(g: Gate, r: Request, scope: Scope): Option<string> {
    if !Passes(g, r) then None
    else match r.action
      case VerifyEmail(guess) => if scope == Verify then Some(guess) else None
      case ResetPassword(guess) => if scope == Reset then Some(guess) else None
      case _ => None
  }

  /** The request's guess is compared with the stored code of the scope. */
  predicate Compares(g: Gate, r: Request, scope: Scope) {
    && GuessAt(g, r, scope).Some?
    && ClaimOtp(CodesOf(g, scope), r.at, GuessAt(g, r, scope).value, OTP_MAX_ATTEMPTS).1 in {Accepted, Wrong}
  }

  predicate Ordered(rs: seq<Request>) {
    forall i, j :: 0 <= i < j < |rs| ==> rs[i].at <= rs[j].at
  }

  /** The gate after the first n requests, from empty keys. */
  function Served(rs: seq<Request>, n: nat): Gate
    requires n <= |rs|
  {
    if n == 0 then Gate(map[], None, map[]) else Serve(Served(rs, n - 1), rs[n - 1])
  }

  predicate SavesAt(rs: seq<Request>, k: nat, scope: Scope)
    requires k < |rs|
  {
    Saves(Served(rs, k), rs[k], scope)
  }

  predicate ComparesAt(rs: seq<Request>, k: nat, scope: Scope)
    requires k < |rs|
  {
    Compares(Served(rs, k), rs[k], scope)
  }

  /** Request i saves a code of the scope that no request before n replaces. */
  predicate SavedAt(rs: seq<Request>, scope: Scope, i: nat, n: nat) {
    i < n <= |rs| && SavesAt(rs, i, scope) && forall k :: i < k < n ==> !SavesAt(rs, k, scope)
  }

  /** How many guesses the code saved by request i was compared with before request n. */
  function Comparisons(rs: seq<Request>, scope: Scope, i: nat, n: nat): nat
    requires i < n <= |rs|
  {
    if n == i + 1 then 0
    else Comparisons(rs, scope, i, n - 1) + if ComparesAt(rs, n - 1, scope) then 1 else 0
  }

  // ---------------------------------------------------------------- the bound

  /** The comparisons a code can still meet: once counted after the save, the limiter's key outlives the code. */
  function Budget(email: Option<Timed<nat>>, o: Otp, now: int): nat {
    if LiveAt(o.code, now).None? then 0
    else if LiveAt(email, now).Some? && email.value.expiresAt >= o.code.value.expiresAt then
      if email.value.value < OTP_RATE_LIMIT_MAX_PER_EMAIL then OTP_RATE_LIMIT_MAX_PER_EMAIL - email.value.value else 0
    else OTP_RATE_LIMIT_MAX_PER_EMAIL
  }

  /** Codes never outlive a window from now. */
  predicate Short(o: Otp, now: int) {
    o.code.Some? ==> o.code.value.expiresAt <= now + OTP_RATE_LIMIT_WINDOW_SECONDS
  }

  lemma BudgetShrinks(email: Option<Timed<nat>>, o: Otp, now: int, later: int)
    ensures now <= later ==> Budget(email, o, later) <= Budget(email, o, now)
  {
  }

  /** A request that saves nothing in the scope: its effect on the email's counter and the scope's code. */
  lemma ServeSpends(g: Gate, r: Request, scope: Scope)
    requires Short(CodesOf(g, scope), r.at) && !Saves(g, r, scope)
    ensures var after := Serve(g, r);
            && Short(CodesOf(after, scope), r.at)
            && Budget(after.email, CodesOf(after, scope), r.at) + (if Compares(g, r, scope) then 1 else 0)
            <= Budget(g.email, CodesOf(g, scope), r.at)
  {
    var o := CodesOf(g, scope);
    if GuessAt(g, r, scope).Some? {
    } else {
      assert CodesOf(Serve(g, r), scope) == o;
    }
  }

  /** The comparisons made so far and those still possible stay within a bound. */
  predicate Bounded(g: Gate, scope: Scope, now: int, spent: nat, bound: nat) {
    Short(CodesOf(g, scope), now) && spent + Budget(g.email, CodesOf(g, scope), now) <= bound
  }

  lemma ServeStaysBounded(g: Gate, r: Request, scope: Scope, now: int, spent: nat, bound: nat)
    requires now <= r.at && Bounded(g, scope, now, spent, bound) && !Saves(g, r, scope)
    ensures Bounded(Serve(g, r), scope, r.at, spent + if Compares(g, r, scope) then 1 else 0, bound)
  {
    BudgetShrinks(g.email, CodesOf(g, scope), now, r.at);
    ServeSpends(g, r, scope);
  }

  lemma BoundedStep(rs: seq<Request>, scope: Scope, i: nat, n: nat, bound: nat)
    requires Ordered(rs) && i + 1 < n <= |rs| && !SavesAt(rs, n - 1, scope)
    requires Bounded(Served(rs, n - 1), scope, rs[n - 2].at, Comparisons(rs, scope, i, n - 1), bound)
    ensures Bounded(Served(rs, n), scope, rs[n - 1].at, Comparisons(rs, scope, i, n), bound)
  {
    ServeStaysBounded(Served(rs, n - 1), rs[n - 1], scope, rs[n - 2].at, Comparisons(rs, scope, i, n - 1), bound);
  }

  lemma {:induction false} WithinBudget(rs: seq<Request>, scope: Scope, i: nat, n: nat, bound: nat)
    requires Ordered(rs) && SavedAt(rs, scope, i, n)
    requires Bounded(Served(rs, i + 1), scope, rs[i].at, 0, bound)
    ensures Bounded(Served(rs, n), scope, rs[n - 1].at, Comparisons(rs, scope, i, n), bound)
    decreases n
  {
    if n > i + 1 {
      WithinBudget(rs, scope, i, n - 1, bound);
      BoundedStep(rs, scope, i, n, bound);
    }
  }

  /**
   * Behind the limiters a code meets at most five guesses in its whole life, whichever addresses they come from, and at
   * most four when the request that saved it was counted itself, as a resend or a password reset is.
   */
  lemma GuessesPerGatedCode(rs: seq<Request>, scope: Scope, i: nat, n: nat)
    requires Ordered(rs) && SavedAt(rs, scope, i, n)
    ensures Comparisons(rs, scope, i, n) <= OTP_RATE_LIMIT_MAX_PER_EMAIL == OTP_MAX_ATTEMPTS == 5
    ensures rs[i].Limited? ==> Comparisons(rs, scope, i, n) <= 4
  {
    WithinBudget(rs, scope, i, n, 5);
    if rs[i].Limited? { WithinBudget(rs, scope, i, n, 4); }
  }

  // ---------------------------------------------------------------- the bounds are met

  /** A code saved at time 0 by the given request, then guesses at it from one address, all in the same second. */
  function GuessTrace(first: Request, guess: string, guesses: nat): (rs: seq<Request>)
    ensures |rs| == guesses + 1 && rs[0] == first
    ensures forall k :: 0 < k <= guesses ==> rs[k] == Limited(0, "ip", VerifyEmail(guess))
  {
    seq(guesses + 1, k => if k == 0 then first else Limited(0, "ip", VerifyEmail(guess)))
  }

  function GuessedGate(code: string, counted: nat, claimed: nat): Gate {
    var counter := Timed(counted, OTP_RATE_LIMIT_WINDOW_SECONDS);
    var attempts := if claimed == 0 then None else Some(Timed(claimed, OTP_TTL_SECONDS));
    Gate(if counted == 0 then map[] else map["ip" := counter], if counted == 0 then None else Some(counter),
         map[Verify := Otp(Some(Timed(code, OTP_TTL_SECONDS)), attempts)])
  }

  lemma OneGuess(code: string, counted: nat, claimed: nat, guess: string)
    ensures guess != code && counted < 5 && claimed < 5 ==>
            var (g, r) := (GuessedGate(code, counted, claimed), Limited(0, "ip", VerifyEmail(guess)));
            && Serve(g, r) == GuessedGate(code, counted + 1, claimed + 1)
            && Compares(g, r, Verify) && !Saves(g, r, Verify)
  {
  }

  lemma {:induction false} GuessesServed(first: Request, code: string, counted: nat, guess: string, guesses: nat,
                                         n: nat)
    requires guess != code && counted + guesses <= 5 && 0 < n <= guesses + 1
    requires Served(GuessTrace(first, guess, guesses), 1) == GuessedGate(code, counted, 0)
    requires SavesAt(GuessTrace(first, guess, guesses), 0, Verify)
    ensures var rs := GuessTrace(first, guess, guesses);
            && Served(rs, n) == GuessedGate(code, counted + n - 1, n - 1)
            && SavedAt(rs, Verify, 0, n) && Comparisons(rs, Verify, 0, n) == n - 1
    decreases n
  {
    if n > 1 {
      GuessesServed(first, code, counted, guess, guesses, n - 1);
      OneGuess(code, counted + n - 2, n - 2, guess);
    }
  }

  /** Five guesses at the code of a registration, and four at a resent one, are compared. */
  lemma GatedBoundsAreMet(code: string, guess: string)
    requires guess != code
    ensures var rs := GuessTrace(Register(0, code), guess, 5);
            SavedAt(rs, Verify, 0, 6) && Comparisons(rs, Verify, 0, 6) == 5
    ensures var rs := GuessTrace(Limited(0, "ip", ResendVerification(code)), guess, 4);
            SavedAt(rs, Verify, 0, 5) && Comparisons(rs, Verify, 0, 5) == 4
  {
    FirstServed(code, guess);
    GuessesServed(Register(0, code), code, 0, guess, 5, 6);
    GuessesServed(Limited(0, "ip", ResendVerification(code)), code, 1, guess, 4, 5);
  }

  lemma FirstServed(code: string, guess: string)
    ensures var rs := GuessTrace(Register(0, code), guess, 5);
            Served(rs, 1) == GuessedGate(code, 0, 0) && SavesAt(rs, 0, Verify)
    ensures var rs := GuessTrace(Limited(0, "ip", ResendVerification(code)), guess, 4);
            Served(rs, 1) == GuessedGate(code, 1, 0) && SavesAt(rs, 0, Verify)
  {
  }
}
