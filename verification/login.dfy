/** The control flow of `POST /api/auth/login` (app/api/auth/login/route.js)
    around the rate limiter. The database lookup, bcrypt and the cookie write
    are oracles passed in; the function returns the limiter's new map, the HTTP
    reply and the ordered list of effects it performed. */
module Login {
  import opened Wrappers
  import Text
  import RateLimit

  const MissingFieldsMessage: string := "Email e senha são obrigatórios"
  const WrongCredentialsMessage: string := "Email ou senha incorretos"
  const LoginFailedMessage: string := "Erro ao fazer login"

  /** An active user row as the `users` table returns it. */
  datatype User = User(id: string, email: string, nome: string, passwordHash: string)

  /** The `email`/`password` fields of the JSON body (None: absent or null). */
  datatype Credentials = Credentials(email: Option<string>, password: Option<string>)

  /** Result of selecting the single active user with the given email. */
  datatype Lookup = Found(user: User) | NotFound | LookupThrew

  /** Result of `bcrypt.compare(password, hash)`. */
  datatype Comparison = Match | Mismatch | CompareThrew

  /** The side effects of one request, in the order they happen. */
  datatype Event =
    | LimiterChecked(key: string)
    | UserLookedUp(key: string)
    | PasswordCompared
    | LimiterReset(key: string)
    | CookieSet(userId: string)

  datatype Body =
    | Error(error: string)
    | Throttled(error: string, cooldownSeconds: int)
    | BadCredentials(error: string, remainingAttempts: int)
    | LoggedIn(id: string, email: string, nome: string)

  datatype Reply = Reply(status: int, body: Body)

  datatype Outcome = Outcome(limiter: RateLimit.Store, reply: Reply, trace: seq<Event>)

  /** A JavaScript string is falsy when missing or empty. */
  predicate Truthy(s: Option<string>) {
    s.Some? && s.value != ""
  }

  predicate MissingField(c: Credentials) {
    !Truthy(c.email) || !Truthy(c.password)
  }

  /** The limiter key: the e-mail lower-cased. */
  function Key(c: Credentials): string
    requires c.email.Some?
  {
    Text.Lower(c.email.value)
  }

  const ServerError: Reply := Reply(500, Error(LoginFailedMessage))

  /** The request handler. `body` is None when `request.json()` throws;
      `cookieWritten` is false when `setAuthCookie` throws. */
  function Post(
    limiter: RateLimit.Store, now: nat, body: Option<Credentials>,
    lookup: string -> Lookup, compare: (string, string) -> Comparison, cookieWritten: bool
  ): (o: Outcome)
    ensures o.reply.status in {200, 400, 401, 429, 500}
    // a missing field is answered with 400 before the limiter is consulted
    ensures o.reply.status == 400 <==> body.Some? && MissingField(body.value)
    ensures (body.None? || MissingField(body.value)) ==> o.trace == [] && o.limiter == limiter
    // otherwise the limiter is consulted first, with the lower-cased e-mail
    ensures body.Some? && !MissingField(body.value) ==>
      |o.trace| >= 1 && o.trace[0] == LimiterChecked(Key(body.value))
    // throttled: 429 carrying the limiter's message and cooldown, and nothing else happens
    ensures o.reply.status == 429 ==>
      && body.Some? && !MissingField(body.value)
      && var s := RateLimit.Check(limiter, Key(body.value), now);
      && s.verdict.Denied?
      && o.reply.body == Throttled(s.verdict.message, s.verdict.cooldownSeconds)
      && o.trace == [LimiterChecked(Key(body.value))]
      && o.limiter == s.store
    // a failed credential check is counted by the limiter and carries its remaining attempts
    ensures o.reply.status == 401 ==>
      && body.Some? && !MissingField(body.value)
      && var k := Key(body.value);
      && var s := RateLimit.Check(limiter, k, now);
      && s.verdict.Allowed?
      && o.reply.body == BadCredentials(WrongCredentialsMessage, s.verdict.remainingAttempts)
      && o.limiter == s.store
      && ((lookup(k).NotFound? && o.trace == [LimiterChecked(k), UserLookedUp(k)])
          || (lookup(k).Found? && compare(body.value.password.value, lookup(k).user.passwordHash) == Mismatch
              && o.trace == [LimiterChecked(k), UserLookedUp(k), PasswordCompared]))
    // success: the limiter entry is reset, then the cookie is written
    ensures o.reply.status == 200 ==>
      && body.Some? && !MissingField(body.value)
      && var k := Key(body.value);
      && lookup(k).Found?
      && compare(body.value.password.value, lookup(k).user.passwordHash) == Match
      && o.reply.body == LoggedIn(lookup(k).user.id, lookup(k).user.email, lookup(k).user.nome)
      && o.trace == [LimiterChecked(k), UserLookedUp(k), PasswordCompared, LimiterReset(k), CookieSet(lookup(k).user.id)]
      && o.limiter == RateLimit.Reset(RateLimit.Check(limiter, k, now).store, k)
    // a thrown exception: the generic reply; whatever the limiter recorded before it stays recorded
    ensures o.reply.status == 500 ==>
      && o.reply == ServerError
      && (body.None? || (
        && !MissingField(body.value)
        && var k := Key(body.value);
        && var s := RateLimit.Check(limiter, k, now);
        && s.verdict.Allowed?
        && ((lookup(k).LookupThrew? && o.trace == [LimiterChecked(k), UserLookedUp(k)] && o.limiter == s.store)
            || (lookup(k).Found? && compare(body.value.password.value, lookup(k).user.passwordHash) == CompareThrew
                && o.trace == [LimiterChecked(k), UserLookedUp(k), PasswordCompared] && o.limiter == s.store)
            || (lookup(k).Found? && compare(body.value.password.value, lookup(k).user.passwordHash) == Match
                && !cookieWritten && o.limiter == RateLimit.Reset(s.store, k)
                && o.trace == [LimiterChecked(k), UserLookedUp(k), PasswordCompared, LimiterReset(k)]))))
  {
    match body
    case None => Outcome(limiter, ServerError, [])
    case Some(c) =>
      if MissingField(c) then
        Outcome(limiter, Reply(400, Error(MissingFieldsMessage)), [])
      else
        var key := Key(c);
        var step := RateLimit.Check(limiter, key, now);
        var checked := [LimiterChecked(key)];
        match step.verdict
        case Denied(seconds, message) =>
          Outcome(step.store, Reply(429, Throttled(message, seconds)), checked)
        case Allowed(remaining) =>
          var looked := checked + [UserLookedUp(key)];
          match lookup(key)
          case LookupThrew => Outcome(step.store, ServerError, looked)
          case NotFound =>
            Outcome(step.store, Reply(401, BadCredentials(WrongCredentialsMessage, remaining)), looked)
          case Found(user) =>
            var compared := looked + [PasswordCompared];
            match compare(c.password.value, user.passwordHash)
            case CompareThrew => Outcome(step.store, ServerError, compared)
            case Mismatch =>
              Outcome(step.store, Reply(401, BadCredentials(WrongCredentialsMessage, remaining)), compared)
            case Match =>
              var cleared := RateLimit.Reset(step.store, key);
              var reset := compared + [LimiterReset(key)];
              if !cookieWritten then Outcome(cleared, ServerError, reset)
              else Outcome(cleared, Reply(200, LoggedIn(user.id, user.email, user.nome)), reset + [CookieSet(user.id)])
  }

  /** An unknown (or inactive) user and a wrong password are answered
      identically, and leave the limiter in the same state. */
  lemma UnknownUserLooksLikeWrongPassword(
    limiter: RateLimit.Store, now: nat, c: Credentials, cookieWritten: bool,
    unknown: string -> Lookup, known: string -> Lookup, compare: (string, string) -> Comparison)
    requires !MissingField(c)
    requires unknown(Key(c)) == NotFound
    requires known(Key(c)).Found? && compare(c.password.value, known(Key(c)).user.passwordHash) == Mismatch
    ensures Post(limiter, now, Some(c), unknown, compare, cookieWritten).reply
         == Post(limiter, now, Some(c), known, compare, cookieWritten).reply
    ensures Post(limiter, now, Some(c), unknown, compare, cookieWritten).limiter
         == Post(limiter, now, Some(c), known, compare, cookieWritten).limiter
  {
  }

  /** The limiter entry is reset only after the password matched, for the same
      key that was checked, and before the session cookie is written. */
  lemma ResetOnlyAfterPasswordMatch(
    limiter: RateLimit.Store, now: nat, body: Option<Credentials>,
    lookup: string -> Lookup, compare: (string, string) -> Comparison, cookieWritten: bool, k: string)
    requires LimiterReset(k) in Post(limiter, now, body, lookup, compare, cookieWritten).trace
    ensures body.Some? && !MissingField(body.value) && k == Key(body.value)
    ensures RateLimit.Check(limiter, k, now).verdict.Allowed?
    ensures lookup(k).Found? && compare(body.value.password.value, lookup(k).user.passwordHash) == Match
    ensures var t := Post(limiter, now, body, lookup, compare, cookieWritten).trace;
      && |t| >= 4
      && t[..4] == [LimiterChecked(k), UserLookedUp(k), PasswordCompared, LimiterReset(k)]
  {
  }

  /** The credentials are wrong: no such active user, or a password that does not match. */
  predicate Rejected(c: Credentials, lookup: string -> Lookup, compare: (string, string) -> Comparison)
    requires !MissingField(c)
  {
    || lookup(Key(c)) == NotFound
    || (lookup(Key(c)).Found? && compare(c.password.value, lookup(Key(c)).user.passwordHash) == Mismatch)
  }

  /** A failed login that the limiter allows is answered with 401 and leaves
      the limiter as one `checkRateLimit` call leaves it. */
  lemma RejectedPostIsCounted(
    limiter: RateLimit.Store, now: nat, c: Credentials,
    lookup: string -> Lookup, compare: (string, string) -> Comparison, cookieWritten: bool)
    requires !MissingField(c) && Rejected(c, lookup, compare)
    requires RateLimit.Check(limiter, Key(c), now).verdict.Allowed?
    ensures var o := Post(limiter, now, Some(c), lookup, compare, cookieWritten);
      && o.reply.status == 401
      && o.limiter == RateLimit.Check(limiter, Key(c), now).store
  {
  }

  /** Four failed logins for one e-mail are answered with 401 and 4, 3, 2, 1
      attempts left; the fifth is answered with 429 and a 60-second cooldown,
      whatever the password and whenever it comes. */
  lemma FifthFailedLoginThrottled(
    limiter: RateLimit.Store, times: seq<nat>, c: Credentials,
    lookup: string -> Lookup, compare: (string, string) -> Comparison, cookieWritten: bool)
    requires !MissingField(c) && Rejected(c, lookup, compare)
    requires Key(c) !in limiter && |times| == 5
    ensures var o1 := Post(limiter, times[0], Some(c), lookup, compare, cookieWritten);
      var o2 := Post(o1.limiter, times[1], Some(c), lookup, compare, cookieWritten);
      var o3 := Post(o2.limiter, times[2], Some(c), lookup, compare, cookieWritten);
      var o4 := Post(o3.limiter, times[3], Some(c), lookup, compare, cookieWritten);
      var o5 := Post(o4.limiter, times[4], Some(c), lookup, compare, cookieWritten);
      && o1.reply.body == BadCredentials(WrongCredentialsMessage, 4)
      && o2.reply.body == BadCredentials(WrongCredentialsMessage, 3)
      && o3.reply.body == BadCredentials(WrongCredentialsMessage, 2)
      && o4.reply.body == BadCredentials(WrongCredentialsMessage, 1)
      && o5.reply == Reply(429, Throttled(RateLimit.BlockMessage(60), 60))
  {
    var k := Key(c);
    var o1 := Post(limiter, times[0], Some(c), lookup, compare, cookieWritten);
    var o2 := Post(o1.limiter, times[1], Some(c), lookup, compare, cookieWritten);
    var o3 := Post(o2.limiter, times[2], Some(c), lookup, compare, cookieWritten);
    var o4 := Post(o3.limiter, times[3], Some(c), lookup, compare, cookieWritten);
    RateLimit.FifthAttemptBlocks(limiter, k, times);
    var s1 := RateLimit.Check(limiter, k, times[0]);
    var s2 := RateLimit.Check(s1.store, k, times[1]);
    var s3 := RateLimit.Check(s2.store, k, times[2]);
    var s4 := RateLimit.Check(s3.store, k, times[3]);
    RateLimit.RunUnfolds(limiter, k, times);
    RejectedPostIsCounted(limiter, times[0], c, lookup, compare, cookieWritten);
    RejectedPostIsCounted(o1.limiter, times[1], c, lookup, compare, cookieWritten);
    RejectedPostIsCounted(o2.limiter, times[2], c, lookup, compare, cookieWritten);
    RejectedPostIsCounted(o3.limiter, times[3], c, lookup, compare, cookieWritten);
  }
}
