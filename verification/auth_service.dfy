/**
 * Sign-up, sign-in and the account operations of the auth service, over the
 * user and token stores. `now` is the request's clock reading in seconds;
 * `Faults` says which store calls fail.
 */
module AuthService {
  import opened Wrappers
  import opened Models
  import opened Durations
  import Password
  import Jwt
  import UR = UserRepository
  import TR = TokenRepository

  const InactiveAccount: string := "account is inactive"
  const UseGoogleLogin: string := "please login with Google"
  const GoogleOnlyChange: string := "cannot change password for Google-only accounts"
  const WrongOldPassword: string := "incorrect old password"

  /** The service's errors; `Refused` carries the message of an ad-hoc `errors.New`. */
  datatype AuthError =
    | InvalidCredentials | PasswordsNotMatch | WeakPassword | UserAlreadyExists | UserNotFound
    | InvalidToken | TokenExpired | TokenAlreadyUsed | GoogleAuthFailed
    | Refused(message: string)
    | HashFailed | GenerateFailed | MailFailed
    | UserStore(userError: UR.UserError)
    | TokenStore(tokenError: TR.TokenError)
    | NilUser

  /**
   * The password hasher and comparer, and the configured access lifetime with
   * Go's duration parser. bcrypt, the JWT signer, the Google ID-token check and
   * the random token generator are outside the model: hashing and comparison
   * are these functions, issued tokens are represented by their claims, and the
   * Google check's answer and a generated token are parameters.
   */
  datatype Env = Env(
    hash: string -> Option<string>,
    matches: string -> string -> bool,
    jwtExpiresIn: string,
    goParse: string -> Option<int>)

  /** bcrypt's promise: a hash made of a password verifies against that password. */
  ghost predicate HashVerifies(env: Env) {
    forall pw | env.hash(pw).Some? :: env.matches(env.hash(pw).value)(pw)
  }

  /**
   * Which store calls fail, by role in an operation: the first look-up, a
   * second look-up, the main write, a second write, and a best-effort write
   * whose error the service discards.
   */
  datatype Faults = Faults(find: bool, lookup: bool, write: bool, update: bool, side: bool)

  const NoFaults: Faults := Faults(false, false, false, false, false)

  datatype Stores = Stores(users: seq<User>, tokens: seq<VerificationToken>)

  /** The stores after the call, failed or not, and what the call returned. */
  datatype Outcome<T> = Outcome(stores: Stores, result: Result<T, AuthError>)

  // ---------------------------------------------------------------------------
  // generateAuthResponse

  /** An auth response; the signed tokens are represented by their claims. */
  datatype AuthResponse = AuthResponse(
    user: UserProfile, access: Jwt.Claims, refresh: Jwt.Claims, expiresIn: int, isNewUser: bool)

  /** `int64(d.Seconds())`: the duration in seconds, truncated toward zero. */
  function WholeSeconds(d: int): (r: int)
    ensures d >= 0 ==> 0 <= r && r * Second <= d < (r + 1) * Second
    ensures d < 0 ==> r <= 0 && (r - 1) * Second < d <= r * Second
  {
    if d >= 0 then d / Second else -((-d) / Second)
  }

  /**
   * generateAuthResponse: an access token living the configured lifetime (24
   * hours when the configuration does not parse), a seven-day refresh token,
   * and the profile.
   */
  function Respond(env: Env, u: User, isNewUser: bool, now: int): (r: AuthResponse)
    ensures r.user == UR.ToUserProfile(u) && r.isNewUser == isNewUser
    ensures r.access.sub == u.id && r.access.email == u.email
    ensures r.refresh.sub == u.id && r.refresh.email == u.email
    ensures r.access.issuedAt == now && r.refresh.issuedAt == now
    ensures r.refresh.expiresAt == now + 7 * 24 * 3600
    ensures Jwt.AccessLifetime(env.jwtExpiresIn, env.goParse) >= 0 ==> r.access.expiresAt == now + r.expiresIn
    ensures env.jwtExpiresIn == "" ==> r.expiresIn == 24 * 3600
  {
    var lifetime := Jwt.AccessLifetime(env.jwtExpiresIn, env.goParse);
    var r := AuthResponse(
      UR.ToUserProfile(u),
      Jwt.TokenClaims(u.id, u.email, now * Second, lifetime),
      Jwt.TokenClaims(u.id, u.email, now * Second, Jwt.RefreshLifetime),
      WholeSeconds(lifetime),
      isNewUser);
    Jwt.SecondsShift(0, now);
    Jwt.SecondsShift(lifetime, now);
    Jwt.SecondsShift(Jwt.RefreshLifetime, now);
    r
  }

  /**
   * A negative configured lifetime (Go's parser accepts "-1h30m") is reported
   * rounded toward zero while the token's expiry is rounded down.
   */
  lemma {:induction false} NegativeLifetimeDisagrees(env: Env, u: User, now: int)
    requires Jwt.AccessLifetime(env.jwtExpiresIn, env.goParse) == -Second / 2
    ensures Respond(env, u, false, now).expiresIn == 0
    ensures Respond(env, u, false, now).access.expiresAt == now - 1
  {
    Jwt.SecondsShift(-Second / 2, now);
  }

  // ---------------------------------------------------------------------------
  // Register

  datatype RegisterRequest = RegisterRequest(email: string, password: string, confirmPassword: string, fullName: string)

  /** The user Register asks the repository to create. */
  function NewEmailUser(req: RegisterRequest, hash: string): (u: User)
    ensures u.id == "" && u.email == req.email && u.fullName == req.fullName && u.passwordHash == Some(hash)
    ensures u.authProvider == UR.EmailProvider && !u.emailVerified && u.isActive
    ensures u.googleId.None? && u.avatarUrl.None? && u.lastLoginAt.None?
  {
    User("", req.email, Some(hash), req.fullName, None, None, UR.EmailProvider, false, true, None, 0, 0)
  }

  /**
   * Register: matching passwords, then strength, then the duplicate check,
   * whose store error is discarded; then the hash and the insert, a best-effort
   * last-login write, and a response for the user as created. The verification
   * mail is sent by a goroutine and is not part of this call.
   */
  function Register(st: Stores, req: RegisterRequest, env: Env, newId: string, now: int, f: Faults)
    : (r: Outcome<AuthResponse>)
    ensures req.password != req.confirmPassword ==> r.result == Failure(PasswordsNotMatch)
    ensures req.password == req.confirmPassword && !Password.Strong(req.password) ==> r.result == Failure(WeakPassword)
    ensures (req.password == req.confirmPassword && Password.Strong(req.password)
             && UR.Find(st.users, UR.ByEmail(req.email), f.find).Success?) ==> r.result == Failure(UserAlreadyExists)
    ensures r.result.Failure? ==> r.stores == st
    ensures r.result.Success? <==>
      && req.password == req.confirmPassword && Password.Strong(req.password)
      && (f.find || UR.FirstIndex(st.users, UR.ByEmail(req.email)).None?)
      && env.hash(req.password).Some?
      && UR.Create(st.users, NewEmailUser(req, env.hash(req.password).value), newId, now, f.lookup, f.write).Success?
    ensures r.result.Success? ==>
      && r.stores.tokens == st.tokens
      && |r.stores.users| == |st.users| + 1
      && (forall i | 0 <= i < |st.users| :: r.stores.users[i] == st.users[i])
      && var u := r.stores.users[|st.users|];
      && u.email == req.email && u.passwordHash == env.hash(req.password)
      && u.authProvider == UR.EmailProvider && !u.emailVerified && u.isActive
      && r.result.value.isNewUser && r.result.value.user.id == u.id
      && r.result.value.user.lastLoginAt.None?
  {
    if req.password != req.confirmPassword then Outcome(st, Failure(PasswordsNotMatch))
    else if !Password.Strong(req.password) then Outcome(st, Failure(WeakPassword))
    else if UR.Find(st.users, UR.ByEmail(req.email), f.find).Success? then Outcome(st, Failure(UserAlreadyExists))
    else match env.hash(req.password)
      case None => Outcome(st, Failure(HashFailed))
      case Some(h) =>
        match UR.Create(st.users, NewEmailUser(req, h), newId, now, f.lookup, f.write)
        case Failure(e) => Outcome(st, Failure(if e == UR.AlreadyExists then UserAlreadyExists else UserStore(e)))
        case Success(c) =>
          var users := UR.UpdateLastLogin(c.store, c.user.id, now, f.side).GetOr(c.store);
          Outcome(st.(users := users), Success(Respond(env, c.user, true, now)))
  }

  // ---------------------------------------------------------------------------
  // Login

  datatype LoginRequest = LoginRequest(email: string, password: string)

  /**
   * Login: an unknown email is reported as bad credentials, other look-up errors
   * pass through; then the account must be active, then have a password, and
   * only then is the password compared.
   */
  function Login(st: Stores, req: LoginRequest, env: Env, now: int, f: Faults): (r: Outcome<AuthResponse>)
    ensures !f.find && UR.FirstIndex(st.users, UR.ByEmail(req.email)).None? ==> r.result == Failure(InvalidCredentials)
    ensures f.find ==> r.result == Failure(UserStore(UR.StoreFailure))
    ensures r.result.Failure? ==> r.stores == st
    ensures r.result.Success? <==>
      && UR.Find(st.users, UR.ByEmail(req.email), f.find).Success?
      && var u := UR.Find(st.users, UR.ByEmail(req.email), f.find).value;
      u.isActive && u.passwordHash.Some? && env.matches(u.passwordHash.value)(req.password)
    ensures UR.Find(st.users, UR.ByEmail(req.email), f.find).Success? ==>
      var u := UR.Find(st.users, UR.ByEmail(req.email), f.find).value;
      && (!u.isActive ==> r.result == Failure(Refused(InactiveAccount)))
      && (u.isActive && u.passwordHash.None? ==> r.result == Failure(Refused(UseGoogleLogin)))
      && (u.isActive && u.passwordHash.Some? && !env.matches(u.passwordHash.value)(req.password) ==>
            r.result == Failure(InvalidCredentials))
      && (r.result.Success? ==> r.result.value == Respond(env, u, false, now))
  {
    match UR.Find(st.users, UR.ByEmail(req.email), f.find)
    case Failure(e) => Outcome(st, Failure(if e == UR.NotFound then InvalidCredentials else UserStore(e)))
    case Success(u) =>
      if !u.isActive then Outcome(st, Failure(Refused(InactiveAccount)))
      else if u.passwordHash.None? then Outcome(st, Failure(Refused(UseGoogleLogin)))
      else if !env.matches(u.passwordHash.value)(req.password) then Outcome(st, Failure(InvalidCredentials))
      else
        var users := UR.UpdateLastLogin(st.users, u.id, now, f.side).GetOr(st.users);
        Outcome(st.(users := users), Success(Respond(env, u, false, now)))
  }

  /**
   * Login does not tell an unregistered email from a wrong password: both
   * answers are the same error.
   */
  lemma LoginHidesRegistration(unknown: Stores, known: Stores, req: LoginRequest, env: Env, now: int)
    requires UR.FirstIndex(unknown.users, UR.ByEmail(req.email)).None?
    requires UR.Find(known.users, UR.ByEmail(req.email), false).Success?
    requires var u := UR.Find(known.users, UR.ByEmail(req.email), false).value;
      u.isActive && u.passwordHash.Some? && !env.matches(u.passwordHash.value)(req.password)
    ensures Login(unknown, req, env, now, NoFaults).result == Login(known, req, env, now, NoFaults).result
    ensures Login(unknown, req, env, now, NoFaults).result == Failure(InvalidCredentials)
  {
  }

  /** The first index a key matches is decided by which users it matches. */
  lemma {:induction false} FirstIndexSameMatches(s: seq<User>, t: seq<User>, k: UR.Key)
    requires |s| == |t|
    requires forall i | 0 <= i < |s| :: UR.Matches(s[i], k) == UR.Matches(t[i], k)
    ensures UR.FirstIndex(s, k) == UR.FirstIndex(t, k)
  {
    if |s| > 0 {
      FirstIndexSameMatches(s[1..], t[1..], k);
    }
  }

  /**
   * Round trip: with a hasher whose hashes verify, an account just registered
   * (the duplicate check having run) logs in with the same email and password.
   */
  lemma {:induction false} RegisterThenLogin(st: Stores, req: RegisterRequest, env: Env, newId: string, now: int, side: bool, later: int)
    requires HashVerifies(env)
    requires Register(st, req, env, newId, now, NoFaults.(side := side)).result.Success?
    ensures var r := Register(st, req, env, newId, now, NoFaults.(side := side));
      Login(r.stores, LoginRequest(req.email, req.password), env, later, NoFaults).result.Success?
  {
    var r := Register(st, req, env, newId, now, NoFaults.(side := side));
    FirstIndexAtEnd(st.users, r.stores.users, UR.ByEmail(req.email));
  }

  /** A key that matches nothing in a store first matches a user added at its end. */
  lemma {:induction false} FirstIndexAtEnd(s: seq<User>, t: seq<User>, k: UR.Key)
    requires |t| == |s| + 1 && UR.FirstIndex(s, k).None? && UR.Matches(t[|s|], k)
    requires forall i | 0 <= i < |s| :: t[i] == s[i]
    ensures UR.FirstIndex(t, k) == Some(|s|)
  {
    if |s| > 0 {
      FirstIndexAtEnd(s[1..], t[1..], k);
    }
  }

  // ---------------------------------------------------------------------------
  // RefreshToken, GetUserProfile

  /**
   * RefreshToken: a token the JWT check refuses is invalid; any look-up error
   * is reported as an unknown user; an inactive account is refused.
   * `validate` is the JWT check, giving the `sub` claim of a token it accepts.
   */
  function RefreshToken(st: Stores, token: string, validate: string -> Option<string>, env: Env, now: int, f: Faults)
    : (r: Outcome<AuthResponse>)
    ensures r.stores == st
    ensures validate(token).None? ==> r.result == Failure(InvalidToken)
    ensures validate(token).Some? && UR.Find(st.users, UR.ById(validate(token).value), f.find).Failure?
      ==> r.result == Failure(UserNotFound)
    ensures r.result.Success? <==>
      && validate(token).Some?
      && UR.Find(st.users, UR.ById(validate(token).value), f.find).Success?
      && UR.Find(st.users, UR.ById(validate(token).value), f.find).value.isActive
    ensures r.result.Success? ==>
      r.result.value == Respond(env, UR.Find(st.users, UR.ById(validate(token).value), f.find).value, false, now)
  {
    match validate(token)
    case None => Outcome(st, Failure(InvalidToken))
    case Some(userId) =>
      match UR.Find(st.users, UR.ById(userId), f.find)
      case Failure(_) => Outcome(st, Failure(UserNotFound))
      case Success(u) =>
        if !u.isActive then Outcome(st, Failure(Refused(InactiveAccount)))
        else Outcome(st, Success(Respond(env, u, false, now)))
  }

  /** GetUserProfile: the profile of the user with that id; any look-up error is an unknown user. */
  function GetUserProfile(st: Stores, userId: string, fails: bool): (r: Result<UserProfile, AuthError>)
    ensures r.Failure? <==> fails || UR.FirstIndex(st.users, UR.ById(userId)).None?
    ensures r.Failure? ==> r.error == UserNotFound
    ensures r.Success? ==> exists u | u in st.users :: u.id == userId && r.value == UR.ToUserProfile(u)
  {
    match UR.Find(st.users, UR.ById(userId), fails)
    case Failure(_) => Failure(UserNotFound)
    case Success(u) => Success(UR.ToUserProfile(u))
  }

  // ---------------------------------------------------------------------------
  // ChangePassword

  datatype ChangePasswordRequest = ChangePasswordRequest(oldPassword: string, newPassword: string)

  /**
   * ChangePassword: the user, then a password to change, then the old password,
   * and only then the new password's strength; then the hash and the write.
   */
  function ChangePassword(st: Stores, userId: string, req: ChangePasswordRequest, env: Env, now: int, f: Faults)
    : (r: Outcome<()>)
    ensures r.stores.tokens == st.tokens
    ensures r.result.Failure? ==> r.stores == st
    ensures UR.Find(st.users, UR.ById(userId), f.find).Failure? ==> r.result == Failure(UserNotFound)
    ensures UR.Find(st.users, UR.ById(userId), f.find).Success? ==>
      var u := UR.Find(st.users, UR.ById(userId), f.find).value;
      && (u.passwordHash.None? ==> r.result == Failure(Refused(GoogleOnlyChange)))
      && (u.passwordHash.Some? && !env.matches(u.passwordHash.value)(req.oldPassword) ==>
            r.result == Failure(Refused(WrongOldPassword)))
      && ((u.passwordHash.Some? && env.matches(u.passwordHash.value)(req.oldPassword)
           && !Password.Strong(req.newPassword)) ==> r.result == Failure(WeakPassword))
      && (r.result.Success? <==>
            u.passwordHash.Some? && env.matches(u.passwordHash.value)(req.oldPassword)
            && Password.Strong(req.newPassword) && env.hash(req.newPassword).Some? && !f.update)
    ensures r.result.Success? ==>
      r.stores.users == UR.UpdatePassword(st.users, userId, env.hash(req.newPassword).value, now, false).value
  {
    match UR.Find(st.users, UR.ById(userId), f.find)
    case Failure(_) => Outcome(st, Failure(UserNotFound))
    case Success(u) =>
      if u.passwordHash.None? then Outcome(st, Failure(Refused(GoogleOnlyChange)))
      else if !env.matches(u.passwordHash.value)(req.oldPassword) then Outcome(st, Failure(Refused(WrongOldPassword)))
      else if !Password.Strong(req.newPassword) then Outcome(st, Failure(WeakPassword))
      else match env.hash(req.newPassword)
        case None => Outcome(st, Failure(HashFailed))
        case Some(h) =>
          match UR.UpdatePassword(st.users, userId, h, now, f.update)
          case Failure(e) => Outcome(st, Failure(UserStore(e)))
          case Success(users) => Outcome(st.(users := users), Success(()))
  }

  /** After a password change, an active user whose email finds them logs in with the new password. */
  lemma {:induction false} ChangeThenLogin(st: Stores, userId: string, req: ChangePasswordRequest, env: Env, now: int, later: int)
    requires HashVerifies(env)
    requires ChangePassword(st, userId, req, env, now, NoFaults).result.Success?
    requires var i := UR.FirstIndex(st.users, UR.ById(userId));
      i.Some? && st.users[i.value].isActive
      && UR.FirstIndex(st.users, UR.ByEmail(st.users[i.value].email)) == i
    ensures var r := ChangePassword(st, userId, req, env, now, NoFaults);
      var email := st.users[UR.FirstIndex(st.users, UR.ById(userId)).value].email;
      Login(r.stores, LoginRequest(email, req.newPassword), env, later, NoFaults).result.Success?
  {
    var r := ChangePassword(st, userId, req, env, now, NoFaults);
    var i := UR.FirstIndex(st.users, UR.ById(userId)).value;
    var s, t := st.users, r.stores.users;
    var h := env.hash(req.newPassword).value;
    assert t == UR.UpdatePassword(s, userId, h, now, false).value;
    var k := UR.ByEmail(s[i].email);
    assert forall j | 0 <= j < |s| :: UR.Matches(s[j], k) == UR.Matches(t[j], k);
    FirstIndexSameMatches(s, t, k);
    assert t[i] == s[i].(passwordHash := Some(h), updatedAt := now);
    assert env.matches(h)(req.newPassword);
  }

  // ---------------------------------------------------------------------------
  // VerifyGoogleToken

  /** What the Google ID-token check yields about the account. */
  datatype GoogleUserInfo = GoogleUserInfo(sub: string, email: string, name: string, picture: string, emailVerified: bool)

  /** The user VerifyGoogleToken creates for an unknown Google account. */
  function NewGoogleUser(g: GoogleUserInfo): (u: User)
    ensures u.id == "" && u.email == g.email && u.fullName == g.name && u.passwordHash.None?
    ensures u.googleId == Some(g.sub) && u.avatarUrl == Some(g.picture)
    ensures u.authProvider == UR.GoogleProvider && u.emailVerified == g.emailVerified && u.isActive
  {
    User("", g.email, None, g.name, Some(g.picture), Some(g.sub), UR.GoogleProvider, g.emailVerified, true, None, 0, 0)
  }

  /** The shared tail: an inactive account is refused, else a best-effort last-login write and a response. */
  function SignIn(st: Stores, u: User, isNewUser: bool, env: Env, now: int, side: bool): (r: Outcome<AuthResponse>)
    ensures r.result.Success? <==> u.isActive
    ensures !u.isActive ==> r == Outcome(st, Failure(Refused(InactiveAccount)))
    ensures r.result.Success? ==> r.result.value == Respond(env, u, isNewUser, now)
    ensures r.stores.tokens == st.tokens
  {
    if !u.isActive then Outcome(st, Failure(Refused(InactiveAccount)))
    else
      var users := UR.UpdateLastLogin(st.users, u.id, now, side).GetOr(st.users);
      Outcome(st.(users := users), Success(Respond(env, u, isNewUser, now)))
  }

  /** A new Google user: created, then signed in as new. */
  function CreateGoogleUser(st: Stores, g: GoogleUserInfo, env: Env, newId: string, now: int, f: Faults)
    : (r: Outcome<AuthResponse>)
    ensures r.stores.tokens == st.tokens
    ensures r.result.Success? ==>
      && r.result.value.isNewUser
      && |r.stores.users| == |st.users| + 1
      && (forall i | 0 <= i < |st.users| :: r.stores.users[i] == st.users[i])
      && var u := r.stores.users[|st.users|];
      u.googleId == Some(g.sub) && u.email == g.email && u.passwordHash.None? && u.isActive
    ensures r.result.Failure? ==> r.stores == st
  {
    match UR.Create(st.users, NewGoogleUser(g), newId, now, f.lookup, f.write)
    case Failure(e) => Outcome(st, Failure(UserStore(e)))
    case Success(c) => SignIn(st.(users := c.store), c.user, true, env, now, f.side)
  }

  /**
   * An existing email user: linked, then re-read by id. The re-read discards
   * its error, and a failed re-read leaves a nil user, which the following
   * dereference does not survive (`NilUser`).
   */
  function LinkGoogleUser(st: Stores, u: User, g: GoogleUserInfo, env: Env, now: int, f: Faults)
    : (r: Outcome<AuthResponse>)
    ensures r.stores.tokens == st.tokens && |r.stores.users| == |st.users|
    ensures r.result.Success? ==> !r.result.value.isNewUser && r.result.value.user.authProvider == UR.GoogleProvider
    ensures !f.write && UR.IdUsed(st.users, u.id) && f.update ==> r.result == Failure(NilUser)
  {
    match UR.LinkGoogleAccount(st.users, u.id, g.sub, Some(g.picture), now, f.write)
    case Failure(e) => Outcome(st, Failure(UserStore(e)))
    case Success(users) =>
      match UR.Find(users, UR.ById(u.id), f.update)
      case Failure(_) => Outcome(st.(users := users), Failure(NilUser))
      case Success(linked) =>
        assert linked.authProvider == UR.GoogleProvider by {
          var j :| 0 <= j < |users| && users[j] == linked;
          assert users[j].id == u.id;
        }
        SignIn(st.(users := users), linked, false, env, now, f.side)
  }

  /**
   * VerifyGoogleToken's step for an unknown Google id: a user found by email is
   * linked, else, when the email is unknown, a new Google user is made; other
   * errors pass through.
   */
  function LinkOrCreate(st: Stores, g: GoogleUserInfo, env: Env, newId: string, now: int, f: Faults)
    : (r: Outcome<AuthResponse>)
    ensures !f.lookup && UR.FirstIndex(st.users, UR.ByEmail(g.email)).None? ==>
      r == CreateGoogleUser(st, g, env, newId, now, f)
    ensures UR.Find(st.users, UR.ByEmail(g.email), f.lookup).Success? ==>
      r == LinkGoogleUser(st, UR.Find(st.users, UR.ByEmail(g.email), f.lookup).value, g, env, now, f)
    ensures f.lookup ==> r == Outcome(st, Failure(UserStore(UR.StoreFailure)))
  {
    match UR.Find(st.users, UR.ByEmail(g.email), f.lookup)
    case Failure(e) =>
      if e != UR.NotFound then Outcome(st, Failure(UserStore(e)))
      else CreateGoogleUser(st, g, env, newId, now, f)
    case Success(u) => LinkGoogleUser(st, u, g, env, now, f)
  }

  /**
   * VerifyGoogleToken: a user with this Google id signs in as they are; an
   * unknown Google id goes on to the email step; other look-up errors pass
   * through. `info` is None when Google's check refuses the token.
   */
  function VerifyGoogleToken(st: Stores, info: Option<GoogleUserInfo>, env: Env, newId: string, now: int, f: Faults)
    : (r: Outcome<AuthResponse>)
    ensures info.None? ==> r == Outcome(st, Failure(GoogleAuthFailed))
    ensures info.Some? && UR.Find(st.users, UR.ByGoogleId(info.value.sub), f.find).Success? ==>
      r == SignIn(st, UR.Find(st.users, UR.ByGoogleId(info.value.sub), f.find).value, false, env, now, f.side)
    ensures info.Some? && f.find ==> r == Outcome(st, Failure(UserStore(UR.StoreFailure)))
    ensures info.Some? && !f.find && UR.FirstIndex(st.users, UR.ByGoogleId(info.value.sub)).None? ==>
      r == LinkOrCreate(st, info.value, env, newId, now, f)
  {
    match info
    case None => Outcome(st, Failure(GoogleAuthFailed))
    case Some(g) =>
      match UR.Find(st.users, UR.ByGoogleId(g.sub), f.find)
      case Success(u) => SignIn(st, u, false, env, now, f.side)
      case Failure(e) =>
        if e != UR.NotFound then Outcome(st, Failure(UserStore(e)))
        else LinkOrCreate(st, g, env, newId, now, f)
  }

  /** A Google user created on first sign-in is found by Google id on the next one, no longer new. */
  lemma {:induction false} GoogleSecondSignIn(st: Stores, g: GoogleUserInfo, env: Env, newId: string, now: int, later: int)
    requires VerifyGoogleToken(st, Some(g), env, newId, now, NoFaults).result.Success?
    requires VerifyGoogleToken(st, Some(g), env, newId, now, NoFaults).result.value.isNewUser
    ensures var r := VerifyGoogleToken(st, Some(g), env, newId, now, NoFaults);
      var again := VerifyGoogleToken(r.stores, Some(g), env, newId, later, NoFaults);
      again.result.Success? && !again.result.value.isNewUser && |again.stores.users| == |r.stores.users|
  {
    var s := st.users;
    var k := UR.ByGoogleId(g.sub);
    assert UR.FirstIndex(s, k).None?;
    assert UR.FirstIndex(s, UR.ByEmail(g.email)).None?;
    var r := CreateGoogleUser(st, g, env, newId, now, NoFaults);
    assert VerifyGoogleToken(st, Some(g), env, newId, now, NoFaults) == r;
    FirstIndexAtEnd(s, r.stores.users, k);
  }
}
