/**
 * The request guards in front of the protected routes: the bearer-token check
 * and the CORS decision. Token parsing and signature checking belong to the JWT
 * library and enter as a parameter (`parse`); a missing header and an empty
 * header are the same thing, as for gin's `GetHeader`.
 */
module Middleware {
  import opened Wrappers
  import opened Strings

  const BearerPrefix: string := "Bearer "

  const MissingHeader: string := "Missing authorization header"
  const InvalidFormat: string := "Invalid authorization format"
  const InvalidToken: string := "Invalid or expired token"

  /** The value of a claim: a JSON string or anything else. */
  datatype ClaimValue = Str(text: string) | NonString

  /** What the JWT library reports about a token it could parse. */
  datatype ParsedToken = ParsedToken(valid: bool, sub: Option<ClaimValue>)

  /** The request is refused with 401 and a message, or passed on, with the user id set or not. */
  datatype AuthOutcome = Unauthorized(message: string) | Proceed(userId: Option<string>)

  // ---------------------------------------------------------------------------
  // AuthMiddleware

  /** The `user_id` put in the context: the `sub` claim, when it is a string. */
  function UserIdOf(t: ParsedToken): (r: Option<string>)
    ensures r.Some? <==> t.sub.Some? && t.sub.value.Str?
    ensures r.Some? ==> t.sub == Some(Str(r.value))
  {
    match t.sub
    case Some(Str(text)) => Some(text)
    case _ => None
  }

  /**
   * AuthMiddleware. The format test is the source's: the header is refused when
   * removing the prefix leaves it unchanged.
   */
  function Authenticate(header: string, parse: string -> Option<ParsedToken>): (r: AuthOutcome)
    ensures header == "" ==> r == Unauthorized(MissingHeader)
    ensures header != "" && !HasPrefix(header, BearerPrefix) ==> r == Unauthorized(InvalidFormat)
    ensures r.Proceed? <==>
      HasPrefix(header, BearerPrefix)
      && parse(header[|BearerPrefix|..]).Some? && parse(header[|BearerPrefix|..]).value.valid
    ensures r.Proceed? ==> r.userId == UserIdOf(parse(header[|BearerPrefix|..]).value)
    ensures r.Unauthorized? ==> r.message in {MissingHeader, InvalidFormat, InvalidToken}
  {
    if header == "" then Unauthorized(MissingHeader)
    else
      var token := TrimPrefix(header, BearerPrefix);
      TrimChanges(header, BearerPrefix);
      if token == header then Unauthorized(InvalidFormat)
      else
        match parse(token)
        case None => Unauthorized(InvalidToken)
        case Some(t) => if !t.valid then Unauthorized(InvalidToken) else Proceed(UserIdOf(t))
  }

  /** Removing a non-empty prefix changes the string exactly when the prefix is there. */
  lemma {:induction false} TrimChanges(s: string, p: string)
    requires |p| > 0
    ensures TrimPrefix(s, p) == s <==> !HasPrefix(s, p)
  {
    if HasPrefix(s, p) {
      assert |TrimPrefix(s, p)| < |s|;
    }
  }

  /**
   * Round trip with the client side: a header built as "Bearer " + token hands
   * exactly that token to the parser, and the outcome is the parser's.
   */
  lemma {:induction false} BearerRoundTrip(token: string, parse: string -> Option<ParsedToken>)
    ensures var r := Authenticate(BearerPrefix + token, parse);
      && (parse(token).None? ==> r == Unauthorized(InvalidToken))
      && (parse(token).Some? && !parse(token).value.valid ==> r == Unauthorized(InvalidToken))
      && (parse(token).Some? && parse(token).value.valid ==> r == Proceed(UserIdOf(parse(token).value)))
  {
    var h := BearerPrefix + token;
    assert HasPrefix(h, BearerPrefix) && h[|BearerPrefix|..] == token;
  }

  /** The scheme is matched case-sensitively and needs its space. */
  lemma {:induction false} SchemeIsExact(parse: string -> Option<ParsedToken>)
    ensures Authenticate("bearer abc", parse) == Unauthorized(InvalidFormat)
    ensures Authenticate("Bearer", parse) == Unauthorized(InvalidFormat)
  {
    assert "bearer abc"[..7] != BearerPrefix by {
      assert "bearer abc"[0] == 'b';
    }
  }

  /** A valid token whose `sub` is not a string still passes, without a user id. */
  lemma {:induction false} NonStringSubjectPasses(token: string, parse: string -> Option<ParsedToken>)
    requires parse(token) == Some(ParsedToken(true, Some(NonString)))
    ensures Authenticate(BearerPrefix + token, parse) == Proceed(None)
  {
    BearerRoundTrip(token, parse);
  }

  // ---------------------------------------------------------------------------
  // CORSMiddleware

  /** The origin is allowed: the list holds "*" or the origin itself. */
  predicate Allows(allowedOrigins: seq<string>, origin: string) {
    "*" in allowedOrigins || origin in allowedOrigins
  }

  /** The scan over the configured origins, stopping at the first that allows. */
  method OriginAllowed(allowedOrigins: seq<string>, origin: string) returns (allowed: bool)
    ensures allowed <==> Allows(allowedOrigins, origin)
  {
    allowed := false;
    var i := 0;
    while i < |allowedOrigins|
      invariant 0 <= i <= |allowedOrigins|
      invariant !allowed
      invariant forall k | 0 <= k < i :: allowedOrigins[k] != "*" && allowedOrigins[k] != origin
    {
      if allowedOrigins[i] == "*" || allowedOrigins[i] == origin {
        allowed := true;
        break;
      }
      i := i + 1;
    }
  }

  const AllowHeaders: string := "Content-Type, Authorization, X-Requested-With"
  const AllowMethods: string := "GET, POST, PUT, PATCH, DELETE, OPTIONS"

  /** The response headers set, and whether the request ends here (with its status) or goes on. */
  datatype CorsOutcome = CorsOutcome(headers: map<string, string>, abortStatus: Option<int>)

  /** CORSMiddleware. */
  function Cors(allowedOrigins: seq<string>, origin: string, httpMethod: string): (r: CorsOutcome)
    ensures !Allows(allowedOrigins, origin) ==> r.headers == map[]
    ensures Allows(allowedOrigins, origin) ==>
      && "Access-Control-Allow-Origin" in r.headers && "Access-Control-Allow-Credentials" in r.headers
      && r.headers["Access-Control-Allow-Origin"] == origin
      && r.headers["Access-Control-Allow-Credentials"] == "true"
    ensures r.abortStatus.Some? <==> httpMethod == "OPTIONS"
    ensures r.abortStatus.Some? ==> r.abortStatus.value == 204
  {
    var headers :=
      if Allows(allowedOrigins, origin) then
        map[
          "Access-Control-Allow-Origin" := origin,
          "Access-Control-Allow-Credentials" := "true",
          "Access-Control-Allow-Headers" := AllowHeaders,
          "Access-Control-Allow-Methods" := AllowMethods
        ]
      else map[];
    CorsOutcome(headers, if httpMethod == "OPTIONS" then Some(204) else None)
  }

  /**
   * With "*" configured, every origin, the empty one included, is echoed back
   * together with the credentials header.
   */
  lemma WildcardEchoesEveryOrigin(allowedOrigins: seq<string>, origin: string, httpMethod: string)
    requires "*" in allowedOrigins
    ensures Cors(allowedOrigins, origin, httpMethod).headers["Access-Control-Allow-Origin"] == origin
  {
  }

  /** A preflight from a refused origin still ends with 204, only without the headers. */
  lemma RefusedPreflight(allowedOrigins: seq<string>, origin: string)
    requires !Allows(allowedOrigins, origin)
    ensures Cors(allowedOrigins, origin, "OPTIONS") == CorsOutcome(map[], Some(204))
  {
  }
}
