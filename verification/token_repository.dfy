/**
 * The one-time tokens behind email verification and password reset: documents
 * in insertion order, found by token string and kind (the first match), marked
 * used by id, and deleted in bulk. Times are seconds; `now` is the clock
 * reading of the call, and a failing store round trip is the `fails` flag.
 */
module TokenRepository {
  import opened Wrappers
  import opened Models

  datatype TokenError = TokenNotFound | TokenExpired | TokenUsed | StoreFailure

  predicate UniqueIds(s: seq<VerificationToken>) {
    forall i, j | 0 <= i < j < |s| :: s[i].id != s[j].id
  }

  predicate IdUsed(s: seq<VerificationToken>, id: string) {
    exists i | 0 <= i < |s| :: s[i].id == id
  }

  /** Still usable at `now`: not past its expiry (`now.After(expiresAt)` is false) and unused. */
  predicate Usable(t: VerificationToken, now: int) {
    now <= t.expiresAt && !t.used
  }

  // ---------------------------------------------------------------------------
  // Create

  datatype Created = Created(store: seq<VerificationToken>, token: VerificationToken)

  /** Create: an id when none is given, the creation time, and `used` forced to false. */
  function Create(s: seq<VerificationToken>, token: VerificationToken, newId: string, now: int, fails: bool)
    : (r: Result<Created, TokenError>)
    ensures r.Success? <==> !fails && !IdUsed(s, if token.id == "" then newId else token.id)
    ensures r.Failure? ==> r.error == StoreFailure
    ensures r.Success? ==> r.value.store == s + [r.value.token]
    ensures r.Success? ==> var t := r.value.token;
      && t.id == (if token.id == "" then newId else token.id)
      && !t.used && t.createdAt == now
      && t.userId == token.userId && t.token == token.token && t.kind == token.kind
      && t.expiresAt == token.expiresAt
  {
    var t := token.(id := if token.id == "" then newId else token.id, createdAt := now, used := false);
    if fails || IdUsed(s, t.id) then Failure(StoreFailure)
    else Success(Created(s + [t], t))
  }

  // ---------------------------------------------------------------------------
  // FindByToken

  predicate Names(t: VerificationToken, tokenStr: string, kind: string) {
    t.token == tokenStr && t.kind == kind
  }

  /** The index of the first token with this string and kind. */
  function FirstNamed(s: seq<VerificationToken>, tokenStr: string, kind: string): (r: Option<nat>)
    ensures r.Some? ==> r.value < |s| && Names(s[r.value], tokenStr, kind)
    ensures r.Some? ==> forall j | 0 <= j < r.value :: !Names(s[j], tokenStr, kind)
    ensures r.None? <==> forall j | 0 <= j < |s| :: !Names(s[j], tokenStr, kind)
  {
    if |s| == 0 then None
    else if Names(s[0], tokenStr, kind) then Some(0)
    else match FirstNamed(s[1..], tokenStr, kind)
      case None => None
      case Some(i) => Some(i + 1)
  }

  /**
   * FindByToken: the first token with this string and kind; then expiry is
   * checked before use, so a token both expired and used reports expiry.
   */
  function FindByToken(s: seq<VerificationToken>, tokenStr: string, kind: string, now: int, fails: bool)
    : (r: Result<VerificationToken, TokenError>)
    ensures fails ==> r == Failure(StoreFailure)
    ensures !fails && FirstNamed(s, tokenStr, kind).None? ==> r == Failure(TokenNotFound)
    ensures !fails && FirstNamed(s, tokenStr, kind).Some? ==>
      var t := s[FirstNamed(s, tokenStr, kind).value];
      && (now > t.expiresAt ==> r == Failure(TokenExpired))
      && (now <= t.expiresAt && t.used ==> r == Failure(TokenUsed))
      && (Usable(t, now) ==> r == Success(t))
    ensures r.Success? ==> r.value in s && Names(r.value, tokenStr, kind) && Usable(r.value, now)
  {
    if fails then Failure(StoreFailure)
    else match FirstNamed(s, tokenStr, kind)
      case None => Failure(TokenNotFound)
      case Some(i) =>
        var t := s[i];
        if now > t.expiresAt then Failure(TokenExpired)
        else if t.used then Failure(TokenUsed)
        else Success(t)
  }

  /** An expired token reports expiry whether or not it was used. */
  lemma ExpiryBeforeUse(s: seq<VerificationToken>, tokenStr: string, kind: string, now: int)
    requires FirstNamed(s, tokenStr, kind).Some?
    requires now > s[FirstNamed(s, tokenStr, kind).value].expiresAt
    ensures FindByToken(s, tokenStr, kind, now, false) == Failure(TokenExpired)
  {
  }

  // ---------------------------------------------------------------------------
  // MarkAsUsed

  /** MarkAsUsed: sets `used` on the token with this id, or ErrTokenNotFound. */
  function MarkAsUsed(s: seq<VerificationToken>, id: string, fails: bool): (r: Result<seq<VerificationToken>, TokenError>)
    ensures r.Success? <==> !fails && IdUsed(s, id)
    ensures !fails && !IdUsed(s, id) ==> r == Failure(TokenNotFound)
    ensures fails ==> r == Failure(StoreFailure)
    ensures r.Success? ==> |r.value| == |s| && forall i | 0 <= i < |s| ::
      r.value[i] == (if s[i].id == id then s[i].(used := true) else s[i])
  {
    if fails then Failure(StoreFailure)
    else if !IdUsed(s, id) then Failure(TokenNotFound)
    else Success(seq(|s|, i requires 0 <= i < |s| => if s[i].id == id then s[i].(used := true) else s[i]))
  }

  /**
   * Single use: once the token a look-up returned is marked used, the same
   * look-up fails, at that time or any later one.
   */
  lemma {:induction false} SingleUse(s: seq<VerificationToken>, tokenStr: string, kind: string, now: int, later: int)
    requires UniqueIds(s) && now <= later
    requires FindByToken(s, tokenStr, kind, now, false).Success?
    ensures var t := FindByToken(s, tokenStr, kind, now, false).value;
      && MarkAsUsed(s, t.id, false).Success?
      && FindByToken(MarkAsUsed(s, t.id, false).value, tokenStr, kind, later, false).Failure?
  {
    var i := FirstNamed(s, tokenStr, kind).value;
    var t := s[i];
    var m := MarkAsUsed(s, t.id, false).value;
    SameNames(s, m, tokenStr, kind);
    assert m[i] == t.(used := true);
  }

  /** Marking tokens used does not move the first match of a string and kind. */
  lemma {:induction false} SameNames(s: seq<VerificationToken>, m: seq<VerificationToken>, tokenStr: string, kind: string)
    requires |s| == |m|
    requires forall i | 0 <= i < |s| :: m[i].token == s[i].token && m[i].kind == s[i].kind
    ensures FirstNamed(s, tokenStr, kind) == FirstNamed(m, tokenStr, kind)
  {
    if |s| > 0 {
      SameNames(s[1..], m[1..], tokenStr, kind);
    }
  }

  // ---------------------------------------------------------------------------
  // Bulk deletion and listing

  /** The tokens `keep` accepts, in their order. */
  function Filter(s: seq<VerificationToken>, keep: VerificationToken -> bool): (r: seq<VerificationToken>)
    ensures |r| <= |s|
    ensures forall t | t in r :: t in s && keep(t)
    ensures forall t | t in s && keep(t) :: t in r
    ensures (forall t | t in s :: !keep(t)) ==> r == []
  {
    if |s| == 0 then []
    else
      var rest := Filter(s[1..], keep);
      assert forall t | t in s :: t == s[0] || t in s[1..];
      if keep(s[0]) then [s[0]] + rest else rest
  }

  /** DeleteByUserIDAndType: removes exactly that user's tokens of that kind. */
  function DeleteByUserIDAndType(s: seq<VerificationToken>, userId: string, kind: string, fails: bool)
    : (r: Result<seq<VerificationToken>, TokenError>)
    ensures r.Failure? <==> fails
    ensures r.Success? ==> forall t :: t in r.value <==> t in s && !(t.userId == userId && t.kind == kind)
  {
    if fails then Failure(StoreFailure)
    else Success(Filter(s, (t: VerificationToken) => !(t.userId == userId && t.kind == kind)))
  }

  /** DeleteExpired: removes the tokens whose expiry is strictly before now. */
  function DeleteExpired(s: seq<VerificationToken>, now: int, fails: bool): (r: Result<seq<VerificationToken>, TokenError>)
    ensures r.Failure? <==> fails
    ensures r.Success? ==> forall t :: t in r.value <==> t in s && t.expiresAt >= now
  {
    if fails then Failure(StoreFailure)
    else Success(Filter(s, (t: VerificationToken) => t.expiresAt >= now))
  }

  /** FindByUserIDAndType: that user's unused tokens of that kind expiring strictly after now. */
  function FindByUserIDAndType(s: seq<VerificationToken>, userId: string, kind: string, now: int, fails: bool)
    : (r: Result<seq<VerificationToken>, TokenError>)
    ensures r.Failure? <==> fails
    ensures r.Success? ==> forall t :: t in r.value <==>
      t in s && t.userId == userId && t.kind == kind && !t.used && t.expiresAt > now
  {
    if fails then Failure(StoreFailure)
    else Success(Filter(s, (t: VerificationToken) => t.userId == userId && t.kind == kind && !t.used && t.expiresAt > now))
  }

  /** After the deletion, that user has no token of that kind left to list. */
  lemma {:induction false} DeleteThenNoneListed(s: seq<VerificationToken>, userId: string, kind: string, now: int)
    ensures var d := DeleteByUserIDAndType(s, userId, kind, false).value;
      FindByUserIDAndType(d, userId, kind, now, false).value == []
  {
    var d := DeleteByUserIDAndType(s, userId, kind, false).value;
    var l := FindByUserIDAndType(d, userId, kind, now, false).value;
  }

  /**
   * The three operations disagree at the instant of expiry: a token expiring
   * exactly now is accepted by FindByToken, is not listed by
   * FindByUserIDAndType, and survives DeleteExpired.
   */
  lemma {:induction false} ExpiryInstant(t: VerificationToken, now: int)
    requires !t.used && t.expiresAt == now
    ensures FindByToken([t], t.token, t.kind, now, false) == Success(t)
    ensures FindByUserIDAndType([t], t.userId, t.kind, now, false).value == []
    ensures DeleteExpired([t], now, false).value == [t]
  {
    var l := FindByUserIDAndType([t], t.userId, t.kind, now, false).value;
    var d := DeleteExpired([t], now, false).value;
    assert t in d;
    assert |d| <= 1;
  }

  /** A token created with a future expiry and a fresh string is found and usable. */
  lemma {:induction false} CreateThenFind(s: seq<VerificationToken>, token: VerificationToken, newId: string, now: int)
    requires Create(s, token, newId, now, false).Success?
    requires forall j | 0 <= j < |s| :: !Names(s[j], token.token, token.kind)
    requires now <= token.expiresAt
    ensures var c := Create(s, token, newId, now, false).value;
      FindByToken(c.store, token.token, token.kind, now, false) == Success(c.token)
  {
    var c := Create(s, token, newId, now, false).value;
    FirstNamedAppend(s, c.token, token.token, token.kind);
  }

  lemma {:induction false} FirstNamedAppend(s: seq<VerificationToken>, t: VerificationToken, tokenStr: string, kind: string)
    requires forall j | 0 <= j < |s| :: !Names(s[j], tokenStr, kind)
    requires Names(t, tokenStr, kind)
    ensures FirstNamed(s + [t], tokenStr, kind) == Some(|s|)
  {
    if |s| > 0 {
      assert (s + [t])[1..] == s[1..] + [t];
      FirstNamedAppend(s[1..], t, tokenStr, kind);
    }
  }
}
