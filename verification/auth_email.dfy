/**
 * The auth service's one-time-token flows: email verification and password
 * reset. A flow issues a token (deleting the user's earlier ones of that kind,
 * storing the new one and mailing it) or redeems one (finding it, marking it
 * used, then writing the user). The generated token string is a parameter
 * (None when the generator fails), and so is the mailer's failure.
 */
module AuthEmail {
  import opened Wrappers
  import opened Models
  import Password
  import UR = UserRepository
  import TR = TokenRepository
  import opened AuthService

  const AlreadyVerified: string := "email already verified"
  const GoogleOnlyReset: string := "cannot reset password for Google-only accounts"

  /** Lifetimes in seconds: a day for email verification, an hour for password reset. */
  const VerificationLifetime: int := 24 * 3600
  const ResetLifetime: int := 3600

  /** How a redeeming flow reports a token look-up error. */
  function FromTokenError(e: TR.TokenError): (r: AuthError)
    ensures r in {InvalidToken, TokenExpired, TokenAlreadyUsed, TokenStore(TR.StoreFailure)}
  {
    match e
    case TokenNotFound => InvalidToken
    case TokenExpired => AuthService.TokenExpired
    case TokenUsed => TokenAlreadyUsed
    case StoreFailure => TokenStore(TR.StoreFailure)
  }

  // ---------------------------------------------------------------------------
  // Issuing

  /** The user's tokens after the best-effort deletion of those of this kind. */
  function Cleared(tokens: seq<VerificationToken>, userId: string, kind: string, fails: bool): (r: seq<VerificationToken>)
    ensures !fails ==> forall t :: t in r <==> t in tokens && !(t.userId == userId && t.kind == kind)
    ensures fails ==> r == tokens
  {
    TR.DeleteByUserIDAndType(tokens, userId, kind, fails).GetOr(tokens)
  }

  /** The token record a flow asks the repository to store. */
  function Draft(userId: string, tokenStr: string, kind: string, expiresAt: int): (t: VerificationToken)
    ensures t.id == "" && t.userId == userId && t.token == tokenStr && t.kind == kind
    ensures t.expiresAt == expiresAt && !t.used
  {
    VerificationToken("", userId, tokenStr, kind, expiresAt, false, 0)
  }

  /**
   * The shared tail of both issuing flows: delete the user's tokens of this
   * kind (errors discarded), generate, store with expiry now + lifetime, mail.
   * A mail failure is reported, but the stored token stays.
   */
  function IssueToken(st: Stores, userId: string, kind: string, lifetime: int, generated: Option<string>,
                      newTokenId: string, now: int, f: Faults, mailFails: bool): (r: Outcome<()>)
    ensures r.stores.users == st.users
    ensures generated.None? ==> r.result == Failure(GenerateFailed)
    ensures r.result.Success? <==>
      && generated.Some? && !mailFails
      && TR.Create(Cleared(st.tokens, userId, kind, f.side), Draft(userId, generated.value, kind, now + lifetime),
                   newTokenId, now, f.write).Success?
    ensures generated.Some? && (r.result.Success? || r.result == Failure(MailFailed)) ==>
      && |r.stores.tokens| > 0
      && r.stores.tokens[..|r.stores.tokens| - 1] == Cleared(st.tokens, userId, kind, f.side)
      && var t := r.stores.tokens[|r.stores.tokens| - 1];
      && t.userId == userId && t.kind == kind && t.token == generated.value
      && t.expiresAt == now + lifetime && !t.used && t.createdAt == now
  {
    var tokens := Cleared(st.tokens, userId, kind, f.side);
    match generated
    case None => Outcome(st.(tokens := tokens), Failure(GenerateFailed))
    case Some(tokenStr) =>
      match TR.Create(tokens, Draft(userId, tokenStr, kind, now + lifetime), newTokenId, now, f.write)
      case Failure(e) => Outcome(st.(tokens := tokens), Failure(TokenStore(e)))
      case Success(c) =>
        assert c.store[..|c.store| - 1] == tokens;
        Outcome(st.(tokens := c.store), if mailFails then Failure(MailFailed) else Success(()))
  }

  /**
   * With the deletion working, a successful issue leaves the new token as the
   * user's only token of that kind.
   */
  lemma {:induction false} IssueLeavesOneToken(st: Stores, userId: string, kind: string, lifetime: int, tokenStr: string,
                            newTokenId: string, now: int, f: Faults, mailFails: bool)
    requires !f.side
    requires IssueToken(st, userId, kind, lifetime, Some(tokenStr), newTokenId, now, f, mailFails).result.Success?
    ensures var tokens := IssueToken(st, userId, kind, lifetime, Some(tokenStr), newTokenId, now, f, mailFails).stores.tokens;
      forall i | 0 <= i < |tokens| - 1 :: !(tokens[i].userId == userId && tokens[i].kind == kind)
  {
    var tokens := IssueToken(st, userId, kind, lifetime, Some(tokenStr), newTokenId, now, f, mailFails).stores.tokens;
    var cleared := Cleared(st.tokens, userId, kind, false);
    forall i | 0 <= i < |tokens| - 1
      ensures !(tokens[i].userId == userId && tokens[i].kind == kind)
    {
      assert tokens[i] == cleared[i];
      assert cleared[i] in cleared;
    }
  }

  // ---------------------------------------------------------------------------
  // SendVerificationEmail, ResendVerificationEmail

  /**
   * SendVerificationEmail: any look-up error is an unknown user; a verified
   * user is refused; otherwise a 24-hour email-verification token is issued.
   */
  function SendVerificationEmail(st: Stores, userId: string, generated: Option<string>, newTokenId: string,
                                 now: int, f: Faults, mailFails: bool): (r: Outcome<()>)
    ensures UR.Find(st.users, UR.ById(userId), f.find).Failure? ==> r == Outcome(st, Failure(UserNotFound))
    ensures UR.Find(st.users, UR.ById(userId), f.find).Success? ==>
      if UR.Find(st.users, UR.ById(userId), f.find).value.emailVerified
      then r == Outcome(st, Failure(Refused(AlreadyVerified)))
      else r == IssueToken(st, userId, EmailVerification, VerificationLifetime, generated, newTokenId, now, f, mailFails)
  {
    match UR.Find(st.users, UR.ById(userId), f.find)
    case Failure(_) => Outcome(st, Failure(UserNotFound))
    case Success(u) =>
      if u.emailVerified then Outcome(st, Failure(Refused(AlreadyVerified)))
      else IssueToken(st, userId, EmailVerification, VerificationLifetime, generated, newTokenId, now, f, mailFails)
  }

  /**
   * ResendVerificationEmail: the user by email (any error is an unknown user),
   * refused when verified, else SendVerificationEmail for that user's id, whose
   * own look-up is the `lookup` fault.
   */
  function ResendVerificationEmail(st: Stores, email: string, generated: Option<string>, newTokenId: string,
                                   now: int, f: Faults, mailFails: bool): (r: Outcome<()>)
    ensures UR.Find(st.users, UR.ByEmail(email), f.find).Failure? ==> r == Outcome(st, Failure(UserNotFound))
    ensures UR.Find(st.users, UR.ByEmail(email), f.find).Success? ==>
      var u := UR.Find(st.users, UR.ByEmail(email), f.find).value;
      && (u.emailVerified ==> r == Outcome(st, Failure(Refused(AlreadyVerified))))
      && (!u.emailVerified ==>
            r == SendVerificationEmail(st, u.id, generated, newTokenId, now, f.(find := f.lookup), mailFails))
  {
    match UR.Find(st.users, UR.ByEmail(email), f.find)
    case Failure(_) => Outcome(st, Failure(UserNotFound))
    case Success(u) =>
      if u.emailVerified then Outcome(st, Failure(Refused(AlreadyVerified)))
      else SendVerificationEmail(st, u.id, generated, newTokenId, now, f.(find := f.lookup), mailFails)
  }

  // ---------------------------------------------------------------------------
  // VerifyEmail

  /**
   * VerifyEmail: the email-verification token, with its errors renamed; then
   * the token is marked used, and only then is the user marked verified. A
   * failure of that last write leaves the token spent.
   */
  function VerifyEmail(st: Stores, tokenStr: string, now: int, f: Faults): (r: Outcome<()>)
    ensures TR.FindByToken(st.tokens, tokenStr, EmailVerification, now, f.find).Failure? ==>
      r == Outcome(st, Failure(FromTokenError(TR.FindByToken(st.tokens, tokenStr, EmailVerification, now, f.find).error)))
    ensures TR.FindByToken(st.tokens, tokenStr, EmailVerification, now, f.find).Success? ==>
      var t := TR.FindByToken(st.tokens, tokenStr, EmailVerification, now, f.find).value;
      && (f.write ==> r == Outcome(st, Failure(TokenStore(TR.StoreFailure))))
      && (!f.write ==> r.stores.tokens == TR.MarkAsUsed(st.tokens, t.id, false).value)
      && (!f.write && r.result.Failure? ==> r.stores.users == st.users)
      && (!f.write ==> (r.result.Success? <==> !f.update && UR.IdUsed(st.users, t.userId)))
      && (r.result.Success? ==>
            r.stores.users == UR.Update(st.users, t.userId, UR.UserPatch(None, None, Some(true)), now, false).value)
  {
    match TR.FindByToken(st.tokens, tokenStr, EmailVerification, now, f.find)
    case Failure(e) => Outcome(st, Failure(FromTokenError(e)))
    case Success(t) =>
      assert TR.IdUsed(st.tokens, t.id) by {
        var j :| 0 <= j < |st.tokens| && st.tokens[j] == t;
      }
      match TR.MarkAsUsed(st.tokens, t.id, f.write)
      case Failure(e) => Outcome(st, Failure(TokenStore(e)))
      case Success(tokens) =>
        match UR.Update(st.users, t.userId, UR.UserPatch(None, None, Some(true)), now, f.update)
        case Failure(e) => Outcome(st.(tokens := tokens), Failure(UserStore(e)))
        case Success(users) => Outcome(Stores(users, tokens), Success(()))
  }

  /** A verification link works once: the same link fails afterwards, at any later time. */
  lemma {:induction false} VerifyEmailOnce(st: Stores, tokenStr: string, now: int, later: int)
    requires TR.UniqueIds(st.tokens) && now <= later
    requires VerifyEmail(st, tokenStr, now, NoFaults).result.Success?
    ensures VerifyEmail(VerifyEmail(st, tokenStr, now, NoFaults).stores, tokenStr, later, NoFaults).result.Failure?
  {
    TR.SingleUse(st.tokens, tokenStr, EmailVerification, now, later);
  }

  /**
   * Round trip: a verification mail sent with a token string no stored token
   * has is redeemed within the day, and the user is then verified.
   */
  lemma {:induction false} SendThenVerify(st: Stores, userId: string, tokenStr: string, newTokenId: string, now: int, later: int)
    requires forall t | t in st.tokens :: t.token != tokenStr
    requires now <= later <= now + VerificationLifetime
    requires SendVerificationEmail(st, userId, Some(tokenStr), newTokenId, now, NoFaults, false).result.Success?
    ensures var sent := SendVerificationEmail(st, userId, Some(tokenStr), newTokenId, now, NoFaults, false);
      var r := VerifyEmail(sent.stores, tokenStr, later, NoFaults);
      && r.result.Success?
      && forall u | u in r.stores.users && u.id == userId :: u.emailVerified
  {
    var sent := SendVerificationEmail(st, userId, Some(tokenStr), newTokenId, now, NoFaults, false);
    Redeemable(st, userId, EmailVerification, VerificationLifetime, tokenStr, newTokenId, now, later);
    assert UR.IdUsed(st.users, userId) by {
      var u := UR.Find(st.users, UR.ById(userId), false).value;
      var j :| 0 <= j < |st.users| && st.users[j] == u;
    }
    VerifyKnownToken(sent.stores, tokenStr, later, sent.stores.tokens[|sent.stores.tokens| - 1]);
  }

  /** A verification token that is found, for a user who exists, verifies that user. */
  lemma {:induction false} VerifyKnownToken(st: Stores, tokenStr: string, now: int, t: VerificationToken)
    requires TR.FindByToken(st.tokens, tokenStr, EmailVerification, now, false) == Success(t)
    requires UR.IdUsed(st.users, t.userId)
    ensures var r := VerifyEmail(st, tokenStr, now, NoFaults);
      r.result.Success? && forall u | u in r.stores.users && u.id == t.userId :: u.emailVerified
  {
    var users := VerifyEmail(st, tokenStr, now, NoFaults).stores.users;
    forall u | u in users && u.id == t.userId
      ensures u.emailVerified
    {
      var i :| 0 <= i < |users| && users[i] == u;
    }
  }

  /**
   * A token just issued with a string no stored token has is what a look-up of
   * that string finds, until its expiry.
   */
  lemma {:induction false} Redeemable(st: Stores, userId: string, kind: string, lifetime: int, tokenStr: string,
                   newTokenId: string, now: int, later: int)
    requires forall t | t in st.tokens :: t.token != tokenStr
    requires now <= later <= now + lifetime
    requires IssueToken(st, userId, kind, lifetime, Some(tokenStr), newTokenId, now, NoFaults, false).result.Success?
    ensures var tokens := IssueToken(st, userId, kind, lifetime, Some(tokenStr), newTokenId, now, NoFaults, false).stores.tokens;
      TR.FindByToken(tokens, tokenStr, kind, later, false) == Success(tokens[|tokens| - 1])
  {
    var cleared := Cleared(st.tokens, userId, kind, false);
    var draft := Draft(userId, tokenStr, kind, now + lifetime);
    assert forall j | 0 <= j < |cleared| :: !TR.Names(cleared[j], tokenStr, kind) by {
      forall j | 0 <= j < |cleared| ensures !TR.Names(cleared[j], tokenStr, kind) {
        assert cleared[j] in cleared;
      }
    }
    var c := TR.Create(cleared, draft, newTokenId, now, false).value;
    TR.FirstNamedAppend(cleared, c.token, tokenStr, kind);
  }

  // ---------------------------------------------------------------------------
  // RequestPasswordReset

  /**
   * RequestPasswordReset: an unknown email succeeds without doing anything,
   * other look-up errors pass through; a Google-only account is refused;
   * otherwise a one-hour password-reset token is issued.
   */
  function RequestPasswordReset(st: Stores, email: string, generated: Option<string>, newTokenId: string,
                                now: int, f: Faults, mailFails: bool): (r: Outcome<()>)
    ensures !f.find && UR.FirstIndex(st.users, UR.ByEmail(email)).None? ==> r == Outcome(st, Success(()))
    ensures f.find ==> r == Outcome(st, Failure(UserStore(UR.StoreFailure)))
    ensures UR.Find(st.users, UR.ByEmail(email), f.find).Success? ==>
      var u := UR.Find(st.users, UR.ByEmail(email), f.find).value;
      && (u.passwordHash.None? ==> r == Outcome(st, Failure(Refused(GoogleOnlyReset))))
      && (u.passwordHash.Some? ==>
            r == IssueToken(st, u.id, PasswordReset, ResetLifetime, generated, newTokenId, now, f, mailFails))
  {
    match UR.Find(st.users, UR.ByEmail(email), f.find)
    case Failure(e) => if e == UR.NotFound then Outcome(st, Success(())) else Outcome(st, Failure(UserStore(e)))
    case Success(u) =>
      if u.passwordHash.None? then Outcome(st, Failure(Refused(GoogleOnlyReset)))
      else IssueToken(st, u.id, PasswordReset, ResetLifetime, generated, newTokenId, now, f, mailFails)
  }

  /**
   * The answer does not tell whether an email is registered: an unknown email
   * gets the same success as a password user whose reset mail went out.
   */
  lemma ResetRequestHidesRegistration(unknown: Stores, known: Stores, email: string, tokenStr: string,
                                      newTokenId: string, now: int)
    requires UR.FirstIndex(unknown.users, UR.ByEmail(email)).None?
    requires RequestPasswordReset(known, email, Some(tokenStr), newTokenId, now, NoFaults, false).result.Success?
    ensures RequestPasswordReset(unknown, email, Some(tokenStr), newTokenId, now, NoFaults, false).result
         == RequestPasswordReset(known, email, Some(tokenStr), newTokenId, now, NoFaults, false).result
  {
  }

  // ---------------------------------------------------------------------------
  // ResetPassword

  /**
   * ResetPassword: the new password's strength first, before any look-up; then
   * the reset token, with its errors renamed; the token is marked used before
   * the hash and the password write; the user's remaining reset tokens are
   * then deleted, best effort.
   */
  function ResetPassword(st: Stores, tokenStr: string, newPassword: string, env: Env, now: int, f: Faults)
    : (r: Outcome<()>)
    ensures !Password.Strong(newPassword) ==> r == Outcome(st, Failure(WeakPassword))
    ensures Password.Strong(newPassword) && TR.FindByToken(st.tokens, tokenStr, PasswordReset, now, f.find).Failure? ==>
      r == Outcome(st, Failure(FromTokenError(TR.FindByToken(st.tokens, tokenStr, PasswordReset, now, f.find).error)))
    ensures Password.Strong(newPassword) && TR.FindByToken(st.tokens, tokenStr, PasswordReset, now, f.find).Success? ==>
      var t := TR.FindByToken(st.tokens, tokenStr, PasswordReset, now, f.find).value;
      && (f.write ==> r == Outcome(st, Failure(TokenStore(TR.StoreFailure))))
      && (!f.write && r.result.Failure? ==>
            r.stores == st.(tokens := TR.MarkAsUsed(st.tokens, t.id, false).value))
      && (!f.write ==> (r.result.Success? <==>
            env.hash(newPassword).Some? && !f.update && UR.IdUsed(st.users, t.userId)))
      && (r.result.Success? ==>
            && r.stores.users == UR.UpdatePassword(st.users, t.userId, env.hash(newPassword).value, now, false).value
            && (!f.side ==> forall u | u in r.stores.tokens :: !(u.userId == t.userId && u.kind == PasswordReset)))
  {
    if !Password.Strong(newPassword) then Outcome(st, Failure(WeakPassword))
    else match TR.FindByToken(st.tokens, tokenStr, PasswordReset, now, f.find)
      case Failure(e) => Outcome(st, Failure(FromTokenError(e)))
      case Success(t) =>
        assert TR.IdUsed(st.tokens, t.id) by {
          var j :| 0 <= j < |st.tokens| && st.tokens[j] == t;
        }
        match TR.MarkAsUsed(st.tokens, t.id, f.write)
        case Failure(e) => Outcome(st, Failure(TokenStore(e)))
        case Success(tokens) =>
          match env.hash(newPassword)
          case None => Outcome(st.(tokens := tokens), Failure(HashFailed))
          case Some(h) =>
            match UR.UpdatePassword(st.users, t.userId, h, now, f.update)
            case Failure(e) => Outcome(st.(tokens := tokens), Failure(UserStore(e)))
            case Success(users) => Outcome(Stores(users, Cleared(tokens, t.userId, PasswordReset, f.side)), Success(()))
  }

  /**
   * Round trip: a reset mail sent with a token string no stored token has is
   * redeemed within the hour, and the user's hash becomes the new password's.
   */
  lemma {:induction false} RequestThenReset(st: Stores, email: string, tokenStr: string, newTokenId: string, now: int, later: int,
                         newPassword: string, env: Env)
    requires forall t | t in st.tokens :: t.token != tokenStr
    requires now <= later <= now + ResetLifetime
    requires Password.Strong(newPassword) && env.hash(newPassword).Some?
    requires UR.Find(st.users, UR.ByEmail(email), false).Success?
    requires RequestPasswordReset(st, email, Some(tokenStr), newTokenId, now, NoFaults, false).result.Success?
    ensures var sent := RequestPasswordReset(st, email, Some(tokenStr), newTokenId, now, NoFaults, false);
      var r := ResetPassword(sent.stores, tokenStr, newPassword, env, later, NoFaults);
      var u := UR.Find(st.users, UR.ByEmail(email), false).value;
      && r.result.Success?
      && forall v | v in r.stores.users && v.id == u.id :: v.passwordHash == env.hash(newPassword)
  {
    var u := UR.Find(st.users, UR.ByEmail(email), false).value;
    var sent := RequestPasswordReset(st, email, Some(tokenStr), newTokenId, now, NoFaults, false);
    Redeemable(st, u.id, PasswordReset, ResetLifetime, tokenStr, newTokenId, now, later);
    assert UR.IdUsed(st.users, u.id) by {
      var j :| 0 <= j < |st.users| && st.users[j] == u;
    }
    ResetKnownToken(sent.stores, tokenStr, newPassword, env, later, sent.stores.tokens[|sent.stores.tokens| - 1]);
  }

  /** A reset token that is found, for a user who exists, sets that user's password. */
  lemma {:induction false} ResetKnownToken(st: Stores, tokenStr: string, newPassword: string, env: Env, now: int, t: VerificationToken)
    requires Password.Strong(newPassword) && env.hash(newPassword).Some?
    requires TR.FindByToken(st.tokens, tokenStr, PasswordReset, now, false) == Success(t)
    requires UR.IdUsed(st.users, t.userId)
    ensures var r := ResetPassword(st, tokenStr, newPassword, env, now, NoFaults);
      r.result.Success? && forall v | v in r.stores.users && v.id == t.userId :: v.passwordHash == env.hash(newPassword)
  {
    var users := ResetPassword(st, tokenStr, newPassword, env, now, NoFaults).stores.users;
    forall v | v in users && v.id == t.userId
      ensures v.passwordHash == env.hash(newPassword)
    {
      var i :| 0 <= i < |users| && users[i] == v;
    }
  }
}
