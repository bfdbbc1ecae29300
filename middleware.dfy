/** The request gates of the backend: reading a user out of JWT claims
    (internal/middleware/read_token.go), the bearer-token middleware
    (auth_middleware.go), the admin middleware (admin_middleware.go), and the
    claims that create_token.go signs. Signature verification is an oracle:
    the parse step is a function parameter. */
module Middleware {
  import opened Common

  /** A claim value as JSON decoding leaves it in a `jwt.MapClaims`: a
      string, a boolean, a number, or anything else (null, array, object). */
  datatype ClaimValue = JString(s: string) | JBool(b: bool) | JNumber(n: int) | JOther

  type Claims = map<string, ClaimValue>

  /** Why claim extraction failed; the key is the claim that failed. */
  datatype ClaimError = MissingOrInvalid(key: string) | InvalidObjectId(key: string)

  /** The text of the error. For an invalid identifier Go appends the
      driver's own error text after the prefix given here. */
  function ClaimErrorText(e: ClaimError): (t: string)
    ensures e.MissingOrInvalid? ==> t == e.key + " claim missing or invalid"
    ensures e.InvalidObjectId? ==> t == "invalid ObjectID for " + e.key
  {
    match e
    case MissingOrInvalid(k) => k + " claim missing or invalid"
    case InvalidObjectId(k) => "invalid ObjectID for " + k
  }

  /** claimToString: the claim must be present, a string, and non-empty. */
  function ClaimToString(claims: Claims, key: string): (r: Result<string, ClaimError>)
    ensures r.Ok? <==> key in claims && claims[key].JString? && claims[key].s != ""
    ensures r.Ok? ==> r.value == claims[key].s && r.value != ""
    ensures r.Err? ==> r.error == MissingOrInvalid(key)
  {
    if key in claims && claims[key].JString? && claims[key].s != "" then Ok(claims[key].s)
    else Err(MissingOrInvalid(key))
  }

  /** claimToBool: the claim's value when it is a boolean, else the default. */
  function ClaimToBool(claims: Claims, key: string, default: bool): (b: bool)
    ensures key in claims && claims[key].JBool? ==> b == claims[key].b
    ensures !(key in claims && claims[key].JBool?) ==> b == default
  {
    if key in claims && claims[key].JBool? then claims[key].b else default
  }

  /** claimToObjectID: a string claim that must also parse as hex. */
  function ClaimToObjectID(claims: Claims, key: string): (r: Result<ObjectId, ClaimError>)
    ensures ClaimToString(claims, key).Err? ==> r == Err(MissingOrInvalid(key))
    ensures ClaimToString(claims, key).Ok? ==>
              match ObjectIDFromHex(ClaimToString(claims, key).value)
              case None => r == Err(InvalidObjectId(key))
              case Some(id) => r == Ok(id)
  {
    match ClaimToString(claims, key)
    case Err(e) => Err(e)
    case Ok(s) =>
      match ObjectIDFromHex(s)
      case None => Err(InvalidObjectId(key))
      case Some(id) => Ok(id)
  }

  /** ExtractUserFromClaims: id, then name, then email; `is_admin` defaults
      to false. */
  function ExtractUserFromClaims(claims: Claims): (r: Result<User, ClaimError>)
    ensures ClaimToObjectID(claims, "id").Err? ==> r == Err(ClaimToObjectID(claims, "id").error)
    ensures ClaimToObjectID(claims, "id").Ok? && ClaimToString(claims, "name").Err? ==>
              r == Err(MissingOrInvalid("name"))
    ensures ClaimToObjectID(claims, "id").Ok? && ClaimToString(claims, "name").Ok?
            && ClaimToString(claims, "email").Err? ==>
              r == Err(MissingOrInvalid("email"))
    ensures r.Ok? <==> ClaimToObjectID(claims, "id").Ok? && ClaimToString(claims, "name").Ok?
                       && ClaimToString(claims, "email").Ok?
    ensures r.Ok? ==>
              && ClaimToObjectID(claims, "id") == Ok(r.value.id)
              && r.value.fullName == claims["name"].s && r.value.fullName != ""
              && r.value.email == claims["email"].s && r.value.email != ""
              && r.value.isAdmin == ("is_admin" in claims && claims["is_admin"] == JBool(true))
              && r.value == UserWith(r.value.id, r.value.fullName, r.value.email, r.value.isAdmin)
  {
    match ClaimToObjectID(claims, "id")
    case Err(e) => Err(e)
    case Ok(id) =>
      match ClaimToString(claims, "name")
      case Err(e) => Err(e)
      case Ok(name) =>
        match ClaimToString(claims, "email")
        case Err(e) => Err(e)
        case Ok(email) =>
          Ok(UserWith(id, name, email, ClaimToBool(claims, "is_admin", false)))
  }

  /** The claims CreateToken signs, as they read back after the JSON round
      trip of signing and parsing: the ObjectID marshals to its hex text,
      `exp` is one hour after `iat`. There is no `is_admin` claim. */
  function CreateClaims(user: User, now: int): (c: Claims)
    ensures c.Keys == {"id", "name", "email", "iss", "exp", "iat"}
    ensures c["id"] == JString(user.id) && c["name"] == JString(user.fullName)
    ensures c["email"] == JString(user.email) && c["iss"] == JString("user")
    ensures c["exp"] == JNumber(now + 3600) && c["iat"] == JNumber(now)
    ensures "is_admin" !in c
  {
    map["id" := JString(user.id), "name" := JString(user.fullName), "email" := JString(user.email),
        "iss" := JString("user"), "exp" := JNumber(now + 3600), "iat" := JNumber(now)]
  }

  /** The claims with the `is_admin` flag the reading side looks for. */
  function CreateClaimsWithAdmin(user: User, now: int): (c: Claims)
    ensures c == CreateClaims(user, now)["is_admin" := JBool(user.isAdmin)]
  {
    CreateClaims(user, now)["is_admin" := JBool(user.isAdmin)]
  }

  /** Reading back the claims of a token the server created gives the
      user's id, name and email, and never the admin flag. */
  lemma CreatedClaimsRoundTrip(user: User, now: int)
    requires user.fullName != "" && user.email != ""
    ensures ExtractUserFromClaims(CreateClaims(user, now))
            == Ok(UserWith(user.id, user.fullName, user.email, false))
  {
    HexRoundTrip(user.id);
  }

  /** A user with an empty name or email cannot read its own token back. */
  lemma CreatedClaimsNeedNameAndEmail(user: User, now: int)
    requires user.fullName == "" || user.email == ""
    ensures ExtractUserFromClaims(CreateClaims(user, now)).Err?
  {
    HexRoundTrip(user.id);
  }

  lemma CreatedClaimsWithAdminRoundTrip(user: User, now: int)
    requires user.fullName != "" && user.email != ""
    ensures ExtractUserFromClaims(CreateClaimsWithAdmin(user, now))
            == Ok(UserWith(user.id, user.fullName, user.email, user.isAdmin))
  {
    HexRoundTrip(user.id);
  }

  /** What `jwt.Parse` with the key function reports about a token string:
      whether the signing method is an HMAC one (the key function refuses
      others), whether the signature and registered claims check out, and
      the claims when they are a `jwt.MapClaims` (None for any other type). */
  datatype ParsedToken = ParsedToken(hmac: bool, valid: bool, claims: Option<Claims>)

  /** The outcome of a gate that may store the user in `c.Locals("user")`. */
  datatype AuthOutcome = AuthOutcome(gate: Gate, stored: Option<User>)

  /** strings.TrimPrefix(s, "Bearer "). */
  function TrimBearer(s: string): (t: string)
    ensures |s| >= 7 && s[..7] == "Bearer " ==> t == s[7..]
    ensures !(|s| >= 7 && s[..7] == "Bearer ") ==> t == s
  {
    if |s| >= 7 && s[..7] == "Bearer " then s[7..] else s
  }

  const Unauthorized := AuthOutcome(Halt(StatusUnauthorized, ErrUnauthorized), None)

  /** AuthMiddleware. `parse` is the oracle for `jwt.Parse`: None when the
      string is not a token at all. */
  function AuthMiddleware(header: string, parse: string -> Option<ParsedToken>): (r: AuthOutcome)
    ensures r.gate.Next? <==> r.stored.Some?
    ensures r.gate.Halt? ==> r == Unauthorized
    ensures header == "" ==> r == Unauthorized
    ensures !(|header| >= 7 && header[..7] == "Bearer ") ==> r == Unauthorized
    ensures r.gate.Next? <==>
              && |header| >= 7 && header[..7] == "Bearer "
              && parse(header[7..]).Some?
              && parse(header[7..]).value.hmac && parse(header[7..]).value.valid
              && parse(header[7..]).value.claims.Some?
              && ExtractUserFromClaims(parse(header[7..]).value.claims.value).Ok?
    ensures r.gate.Next? ==>
              r.stored == Some(ExtractUserFromClaims(parse(header[7..]).value.claims.value).value)
  {
    if header == "" then Unauthorized
    else
      var tokenStr := TrimBearer(header);
      if tokenStr == header then Unauthorized
      else
        match parse(tokenStr)
        case None => Unauthorized
        case Some(t) =>
          if !t.hmac || !t.valid then Unauthorized
          else
            match t.claims
            case None => Unauthorized
            case Some(claims) =>
              match ExtractUserFromClaims(claims)
              case Err(_) => Unauthorized
              case Ok(user) => AuthOutcome(Next, Some(user))
  }

  /** AdminMiddleware: no user 401, a value of another type 500, a
      non-admin 403; only an admin goes on. */
  function AdminMiddleware(local: Local): (g: Gate)
    ensures local.NoLocal? ==> g == Halt(StatusUnauthorized, ErrUnauthorized)
    ensures local.OtherLocal? ==> g == Halt(StatusInternalServerError, ErrInternalServer)
    ensures local.UserLocal? && !local.user.isAdmin ==> g == Halt(StatusForbidden, ErrForbidden)
    ensures g.Next? <==> local.UserLocal? && local.user.isAdmin
  {
    match local
    case NoLocal => Halt(StatusUnauthorized, ErrUnauthorized)
    case OtherLocal => Halt(StatusInternalServerError, ErrInternalServer)
    case UserLocal(user) => if !user.isAdmin then Halt(StatusForbidden, ErrForbidden) else Next
  }

  /** The admin route group: AuthMiddleware, then AdminMiddleware on what it
      stored. */
  function AdminChain(header: string, parse: string -> Option<ParsedToken>): (g: Gate)
    ensures AuthMiddleware(header, parse).gate.Halt? ==> g == AuthMiddleware(header, parse).gate
    ensures g.Next? <==> AuthMiddleware(header, parse).stored.Some?
                         && AuthMiddleware(header, parse).stored.value.isAdmin
  {
    var a := AuthMiddleware(header, parse);
    match a.stored
    case None => a.gate
    case Some(u) => AdminMiddleware(UserLocal(u))
  }

  /** With server-created tokens as written, the admin routes refuse every
      request that authenticates: the claims never carry `is_admin`. */
  lemma AdminUnreachableWithCreatedTokens(header: string, parse: string -> Option<ParsedToken>, user: User, now: int)
    requires |header| >= 7 && header[..7] == "Bearer "
    requires parse(header[7..]) == Some(ParsedToken(true, true, Some(CreateClaims(user, now))))
    requires user.fullName != "" && user.email != "" && user.isAdmin
    ensures AdminChain(header, parse) == Halt(StatusForbidden, ErrForbidden)
  {
    CreatedClaimsRoundTrip(user, now);
  }

  /** With the admin flag in the claims, an admin's own valid token passes
      the admin routes and a non-admin's is refused with 403. */
  lemma AdminChainWithAdminClaims(header: string, parse: string -> Option<ParsedToken>, user: User, now: int)
    requires |header| >= 7 && header[..7] == "Bearer "
    requires parse(header[7..]) == Some(ParsedToken(true, true, Some(CreateClaimsWithAdmin(user, now))))
    requires user.fullName != "" && user.email != ""
    ensures user.isAdmin ==> AdminChain(header, parse) == Next
    ensures !user.isAdmin ==> AdminChain(header, parse) == Halt(StatusForbidden, ErrForbidden)
  {
    CreatedClaimsWithAdminRoundTrip(user, now);
  }
}
