/**
 * The user collection: documents in insertion order, looked up by id, email
 * or Google id (the first match, as `FindOne` returns), and written by id.
 * The `_id` primary key keeps ids distinct; nothing keeps emails distinct but
 * the look-up `Create` makes first. A failing store round trip is the `fails`
 * flag of each operation; the new UUID and the clock reading are parameters.
 */
module UserRepository {
  import opened Wrappers
  import opened Models

  datatype UserError = NotFound | AlreadyExists | StoreFailure

  const EmailProvider: string := "email"
  const GoogleProvider: string := "google"

  predicate UniqueIds(s: seq<User>) {
    forall i, j | 0 <= i < j < |s| :: s[i].id != s[j].id
  }

  predicate IdUsed(s: seq<User>, id: string) {
    exists i | 0 <= i < |s| :: s[i].id == id
  }

  // ---------------------------------------------------------------------------
  // Lookups

  /** The field a lookup filters on. */
  datatype Key = ById(id: string) | ByEmail(email: string) | ByGoogleId(googleId: string)

  predicate Matches(u: User, k: Key) {
    match k
    case ById(id) => u.id == id
    case ByEmail(email) => u.email == email
    case ByGoogleId(g) => u.googleId == Some(g)
  }

  /** The index of the first user the key matches. */
  function FirstIndex(s: seq<User>, k: Key): (r: Option<nat>)
    ensures r.Some? ==> r.value < |s| && Matches(s[r.value], k)
    ensures r.Some? ==> forall j | 0 <= j < r.value :: !Matches(s[j], k)
    ensures r.None? <==> forall j | 0 <= j < |s| :: !Matches(s[j], k)
  {
    if |s| == 0 then None
    else if Matches(s[0], k) then Some(0)
    else match FirstIndex(s[1..], k)
      case None => None
      case Some(i) => Some(i + 1)
  }

  /** FindByID, FindByEmail and FindByGoogleID: the first match, or ErrUserNotFound. */
  function Find(s: seq<User>, k: Key, fails: bool): (r: Result<User, UserError>)
    ensures fails ==> r == Failure(StoreFailure)
    ensures !fails ==> (r.Failure? <==> forall j | 0 <= j < |s| :: !Matches(s[j], k))
    ensures r.Failure? ==> r.error in {StoreFailure, NotFound}
    ensures r.Success? ==> r.value in s && Matches(r.value, k)
  {
    if fails then Failure(StoreFailure)
    else match FirstIndex(s, k)
      case None => Failure(NotFound)
      case Some(i) => Success(s[i])
  }

  /** With distinct ids, the user found by id is the only one with that id. */
  lemma FindByIdUnique(s: seq<User>, id: string)
    requires UniqueIds(s)
    ensures Find(s, ById(id), false).Success? ==>
      forall j | 0 <= j < |s| && s[j].id == id :: s[j] == Find(s, ById(id), false).value
  {
  }

  // ---------------------------------------------------------------------------
  // Create

  datatype Created = Created(store: seq<User>, user: User)

  /**
   * The user as stored: the id generated when none is given, both timestamps
   * set to now, the provider defaulting to "email", and the account active.
   */
  function Prepared(user: User, newId: string, now: int): (r: User)
    ensures r.id == (if user.id == "" then newId else user.id)
    ensures r.createdAt == now && r.updatedAt == now && r.isActive
    ensures r.authProvider == (if user.authProvider == "" then EmailProvider else user.authProvider)
    ensures r.email == user.email && r.passwordHash == user.passwordHash && r.fullName == user.fullName
    ensures r.avatarUrl == user.avatarUrl && r.googleId == user.googleId
    ensures r.emailVerified == user.emailVerified && r.lastLoginAt == user.lastLoginAt
  {
    user.(
      id := if user.id == "" then newId else user.id,
      createdAt := now,
      updatedAt := now,
      authProvider := if user.authProvider == "" then EmailProvider else user.authProvider,
      isActive := true)
  }

  /**
   * Create. The email look-up's error is discarded, so a failed look-up lets the
   * insert go ahead; the insert fails on a store failure or a taken id.
   */
  function Create(s: seq<User>, user: User, newId: string, now: int, lookupFails: bool, insertFails: bool)
    : (r: Result<Created, UserError>)
    ensures !lookupFails && Find(s, ByEmail(user.email), false).Success? ==> r == Failure(AlreadyExists)
    ensures r.Success? ==> r.value.user == Prepared(user, newId, now) && r.value.store == s + [r.value.user]
    ensures r.Success? <==>
      && (lookupFails || Find(s, ByEmail(user.email), false).Failure?)
      && !insertFails && !IdUsed(s, Prepared(user, newId, now).id)
    ensures r.Failure? ==> r.error in {AlreadyExists, StoreFailure}
  {
    var existing := if lookupFails then None else FirstIndex(s, ByEmail(user.email));
    if existing.Some? then Failure(AlreadyExists)
    else
      var u := Prepared(user, newId, now);
      if insertFails || IdUsed(s, u.id) then Failure(StoreFailure)
      else Success(Created(s + [u], u))
  }

  /** A created user is found again by id and by email, and ids stay distinct. */
  lemma {:induction false} CreateThenFind(s: seq<User>, user: User, newId: string, now: int, lookupFails: bool)
    requires UniqueIds(s)
    requires Create(s, user, newId, now, lookupFails, false).Success?
    ensures var c := Create(s, user, newId, now, lookupFails, false).value;
      && UniqueIds(c.store)
      && Find(c.store, ById(c.user.id), false) == Success(c.user)
      && Find(c.store, ByEmail(user.email), false).Success?
  {
    var c := Create(s, user, newId, now, lookupFails, false).value;
    assert c.store[|s|] == c.user;
    if !lookupFails {
      assert Find(c.store, ByEmail(user.email), false) == Success(c.user) by {
        PrefixMisses(s, c.user, ByEmail(user.email));
      }
    }
    PrefixMisses(s, c.user, ById(c.user.id));
  }

  /** When nothing in `s` matches, the first match in `s + [u]` is `u` itself. */
  lemma {:induction false} PrefixMisses(s: seq<User>, u: User, k: Key)
    requires forall j | 0 <= j < |s| :: !Matches(s[j], k)
    requires Matches(u, k)
    ensures FirstIndex(s + [u], k) == Some(|s|)
  {
    if |s| > 0 {
      assert (s + [u])[1..] == s[1..] + [u];
      PrefixMisses(s[1..], u, k);
    }
  }

  /** A second registration with the same email is refused while look-ups work. */
  lemma DuplicateEmailRefused(s: seq<User>, user: User, other: User, newId: string, now: int, insertFails: bool)
    requires other in s && other.email == user.email
    ensures Create(s, user, newId, now, false, insertFails) == Failure(AlreadyExists)
  {
  }

  /** When the look-up fails, nothing stops a second user with the same email. */
  lemma {:induction false} LookupFailureAdmitsDuplicate(s: seq<User>, user: User, newId: string, now: int)
    requires Find(s, ByEmail(user.email), false).Success?
    requires !IdUsed(s, Prepared(user, newId, now).id)
    ensures Create(s, user, newId, now, true, false).Success?
    ensures var t := Create(s, user, newId, now, true, false).value.store;
      exists i, j | 0 <= i < j < |t| :: t[i].email == user.email && t[j].email == user.email
  {
    var t := Create(s, user, newId, now, true, false).value.store;
    var i := FirstIndex(s, ByEmail(user.email)).value;
    assert t[i] == s[i] && t[|s|].email == user.email;
  }

  // ---------------------------------------------------------------------------
  // Writes by id

  /** `f` applied to the users with this id; every other user is kept. */
  function Modify(s: seq<User>, id: string, f: User -> User): (r: seq<User>)
    ensures |r| == |s|
    ensures forall i | 0 <= i < |s| :: r[i] == (if s[i].id == id then f(s[i]) else s[i])
  {
    seq(|s|, i requires 0 <= i < |s| => if s[i].id == id then f(s[i]) else s[i])
  }

  /** An `UpdateOne` by id: a store failure, ErrUserNotFound when no id matches, or the write. */
  function UpdateOne(s: seq<User>, id: string, f: User -> User, fails: bool): (r: Result<seq<User>, UserError>)
    ensures fails ==> r == Failure(StoreFailure)
    ensures !fails && !IdUsed(s, id) ==> r == Failure(NotFound)
    ensures r.Success? <==> !fails && IdUsed(s, id)
    ensures r.Success? ==> r.value == Modify(s, id, f)
  {
    if fails then Failure(StoreFailure)
    else if !IdUsed(s, id) then Failure(NotFound)
    else Success(Modify(s, id, f))
  }

  /** The fields the generic `Update` is given; `updated_at` is always set. */
  datatype UserPatch = UserPatch(fullName: Option<string>, avatarUrl: Option<string>, emailVerified: Option<bool>)

  /** Update: sets the supplied fields and the update time. */
  function Update(s: seq<User>, id: string, patch: UserPatch, now: int, fails: bool): (r: Result<seq<User>, UserError>)
    ensures r.Failure? <==> fails || !IdUsed(s, id)
    ensures r.Success? ==> |r.value| == |s| && forall i | 0 <= i < |s| ::
      if s[i].id != id then r.value[i] == s[i]
      else
        && r.value[i].updatedAt == now
        && r.value[i].fullName == patch.fullName.GetOr(s[i].fullName)
        && r.value[i].emailVerified == patch.emailVerified.GetOr(s[i].emailVerified)
        && r.value[i].avatarUrl == (if patch.avatarUrl.Some? then patch.avatarUrl else s[i].avatarUrl)
        && r.value[i] == s[i].(updatedAt := now, fullName := r.value[i].fullName,
                               emailVerified := r.value[i].emailVerified, avatarUrl := r.value[i].avatarUrl)
  {
    UpdateOne(s, id, (u: User) => u.(
      updatedAt := now,
      fullName := patch.fullName.GetOr(u.fullName),
      emailVerified := patch.emailVerified.GetOr(u.emailVerified),
      avatarUrl := if patch.avatarUrl.Some? then patch.avatarUrl else u.avatarUrl), fails)
  }

  /** UpdatePassword: the new hash and the update time; nothing else changes. */
  function UpdatePassword(s: seq<User>, id: string, hash: string, now: int, fails: bool)
    : (r: Result<seq<User>, UserError>)
    ensures r.Failure? <==> fails || !IdUsed(s, id)
    ensures r.Success? ==> |r.value| == |s| && forall i | 0 <= i < |s| ::
      r.value[i] == (if s[i].id == id then s[i].(passwordHash := Some(hash), updatedAt := now) else s[i])
  {
    UpdateOne(s, id, (u: User) => u.(passwordHash := Some(hash), updatedAt := now), fails)
  }

  /** UpdateLastLogin: last login and update time both become now. */
  function UpdateLastLogin(s: seq<User>, id: string, now: int, fails: bool): (r: Result<seq<User>, UserError>)
    ensures r.Failure? <==> fails || !IdUsed(s, id)
    ensures r.Success? ==> |r.value| == |s| && forall i | 0 <= i < |s| ::
      r.value[i] == (if s[i].id == id then s[i].(lastLoginAt := Some(now), updatedAt := now) else s[i])
  {
    UpdateOne(s, id, (u: User) => u.(lastLoginAt := Some(now), updatedAt := now), fails)
  }

  /**
   * LinkGoogleAccount: the Google id and the "google" provider; the avatar is
   * replaced only by a present, non-empty URL.
   */
  function LinkGoogleAccount(s: seq<User>, id: string, googleId: string, avatarUrl: Option<string>, now: int, fails: bool)
    : (r: Result<seq<User>, UserError>)
    ensures r.Failure? <==> fails || !IdUsed(s, id)
    ensures r.Success? ==> |r.value| == |s| && forall i | 0 <= i < |s| ::
      if s[i].id != id then r.value[i] == s[i]
      else
        && r.value[i].googleId == Some(googleId)
        && r.value[i].authProvider == GoogleProvider
        && r.value[i].updatedAt == now
        && r.value[i].avatarUrl == (if Given(avatarUrl) then avatarUrl else s[i].avatarUrl)
        && r.value[i].passwordHash == s[i].passwordHash
        && r.value[i].email == s[i].email
  {
    UpdateOne(s, id, (u: User) => u.(
      googleId := Some(googleId),
      authProvider := GoogleProvider,
      updatedAt := now,
      avatarUrl := if Given(avatarUrl) then avatarUrl else u.avatarUrl), fails)
  }

  /** Linking keeps the password: an email user who links Google can still log in with it. */
  lemma {:induction false} LinkKeepsPassword(s: seq<User>, id: string, googleId: string, avatarUrl: Option<string>, now: int)
    requires UniqueIds(s)
    requires Find(s, ById(id), false).Success?
    ensures var r := LinkGoogleAccount(s, id, googleId, avatarUrl, now, false);
      && r.Success?
      && Find(r.value, ById(id), false).Success?
      && Find(r.value, ById(id), false).value.passwordHash == Find(s, ById(id), false).value.passwordHash
      && Find(r.value, ById(id), false).value.googleId == Some(googleId)
  {
    var r := LinkGoogleAccount(s, id, googleId, avatarUrl, now, false).value;
    var i := FirstIndex(s, ById(id)).value;
    assert r[i].id == id;
    FirstIndexSameIds(s, r, ById(id));
  }

  /** A lookup by id sees the same index in a store whose ids are unchanged. */
  lemma {:induction false} FirstIndexSameIds(s: seq<User>, t: seq<User>, k: Key)
    requires k.ById? && |s| == |t|
    requires forall i | 0 <= i < |s| :: s[i].id == t[i].id
    ensures FirstIndex(s, k) == FirstIndex(t, k)
  {
    if |s| > 0 {
      FirstIndexSameIds(s[1..], t[1..], k);
    }
  }

  /** Delete is soft: the account stays, inactive. */
  function Delete(s: seq<User>, id: string, now: int, fails: bool): (r: Result<seq<User>, UserError>)
    ensures r.Failure? <==> fails || !IdUsed(s, id)
    ensures r.Success? ==> |r.value| == |s| && forall i | 0 <= i < |s| ::
      r.value[i] == (if s[i].id == id then s[i].(isActive := false, updatedAt := now) else s[i])
  {
    UpdateOne(s, id, (u: User) => u.(isActive := false, updatedAt := now), fails)
  }

  /** After a soft delete the user is still found, by id and by email, but inactive. */
  lemma {:induction false} SoftDeleteKeepsRecord(s: seq<User>, id: string, now: int)
    requires UniqueIds(s) && IdUsed(s, id)
    ensures var r := Delete(s, id, now, false);
      && r.Success?
      && Find(r.value, ById(id), false).Success?
      && !Find(r.value, ById(id), false).value.isActive
      && forall e :: Find(r.value, ByEmail(e), false).Success? <==> Find(s, ByEmail(e), false).Success?
  {
    var r := Delete(s, id, now, false).value;
    FirstIndexSameIds(s, r, ById(id));
    forall e ensures Find(r, ByEmail(e), false).Success? <==> Find(s, ByEmail(e), false).Success? {
      assert forall j | 0 <= j < |s| :: r[j].email == s[j].email;
    }
  }

  /** HardDelete: removes the user with this id, or ErrUserNotFound. */
  function HardDelete(s: seq<User>, id: string, fails: bool): (r: Result<seq<User>, UserError>)
    ensures r.Failure? <==> fails || !IdUsed(s, id)
    ensures r.Success? ==> !IdUsed(r.value, id)
    ensures r.Success? ==> forall u | u in s && u.id != id :: u in r.value
    ensures r.Success? ==> forall u | u in r.value :: u in s
  {
    if fails then Failure(StoreFailure)
    else if !IdUsed(s, id) then Failure(NotFound)
    else Success(Without(s, id))
  }

  function Without(s: seq<User>, id: string): (r: seq<User>)
    ensures forall u | u in r :: u in s && u.id != id
    ensures forall u | u in s && u.id != id :: u in r
    ensures !IdUsed(r, id)
  {
    if |s| == 0 then []
    else
      var rest := Without(s[1..], id);
      assert forall u | u in s :: u == s[0] || u in s[1..];
      if s[0].id == id then rest else [s[0]] + rest
  }

  // ---------------------------------------------------------------------------
  // ToUserProfile

  /** ToUserProfile: the client-safe view, without the hash, the Google id or the flags. */
  function ToUserProfile(u: User): (r: UserProfile)
    ensures r.id == u.id && r.email == u.email && r.fullName == u.fullName
    ensures r.avatarUrl == u.avatarUrl && r.authProvider == u.authProvider
    ensures r.emailVerified == u.emailVerified && r.lastLoginAt == u.lastLoginAt && r.createdAt == u.createdAt
  {
    UserProfile(u.id, u.email, u.fullName, u.avatarUrl, u.authProvider, u.emailVerified, u.lastLoginAt, u.createdAt)
  }

  /**
   * The profile reveals nothing of the password hash, the Google id, the active
   * flag or the update time: users differing only there have the same profile.
   */
  lemma ProfileIgnoresSecrets(u: User, hash: Option<string>, googleId: Option<string>, active: bool, updated: int)
    ensures ToUserProfile(u.(passwordHash := hash, googleId := googleId, isActive := active, updatedAt := updated))
      == ToUserProfile(u)
  {
  }

  /** A password change is invisible in every profile. */
  lemma {:induction false} PasswordChangeInvisible(s: seq<User>, id: string, hash: string, now: int, i: nat)
    requires UpdatePassword(s, id, hash, now, false).Success? && i < |s|
    ensures ToUserProfile(UpdatePassword(s, id, hash, now, false).value[i]) == ToUserProfile(s[i])
  {
    var r := UpdatePassword(s, id, hash, now, false).value;
    if s[i].id == id {
      ProfileIgnoresSecrets(s[i], Some(hash), s[i].googleId, s[i].isActive, now);
    }
  }
}
