/**
  The guards of backend/src/middleware/auth.js. Token verification and the user
  lookup are outside code: they enter as an outcome given to the guard.
*/
module Auth {
  import opened Wrappers

  datatype Role = User | Admin

  /** The user columns the guards select. */
  datatype AuthUser = AuthUser(id: string, email: string, role: Role)

  /** A refusal: HTTP status and message. */
  datatype Refusal = Refusal(status: int, message: string)

  /** What `jwt.verify` does with a token: decode it to a user id, or throw an error by name. */
  datatype VerifyOutcome = Decoded(userId: string) | Thrown(errorName: string)

  /** What the user lookup does: find the user, find nothing, or throw. */
  datatype Lookup = Found(user: AuthUser) | NoUser | LookupFailed

  const NoTokenMessage := "Access denied. No token provided."
  const UserNotFoundMessage := "Invalid token. User not found."
  const InvalidTokenMessage := "Invalid token."
  const ExpiredMessage := "Token expired."
  const AuthErrorMessage := "Authentication error."
  const AuthRequiredMessage := "Access denied. Authentication required."
  const ForbiddenMessage := "Access denied. Insufficient permissions."
  const ResourceNotFoundMessage := "Resource not found."
  const NotOwnerMessage := "Access denied. You can only modify your own resources."
  const AuthorizationErrorMessage := "Authorization error."

  const Prefix := "Bearer "

  /** The token in an Authorization header: the part after "Bearer ", if that is non-empty. */
  function BearerToken(header: Option<string>): (t: Option<string>)
    ensures t.Some? <==> header.Some? && |header.value| > |Prefix| && header.value[..|Prefix|] == Prefix
    ensures t.Some? ==> t.value != [] && header.value == Prefix + t.value
  {
    if header.Some? && |header.value| >= |Prefix| && header.value[..|Prefix|] == Prefix
       && header.value[|Prefix|..] != []
    then
      assert header.value == Prefix + header.value[|Prefix|..];
      Some(header.value[|Prefix|..])
    else None
  }

  /** The token read back from the header the client builds. */
  lemma BearerOfToken(token: string)
    requires token != []
    ensures BearerToken(Some(Prefix + token)) == Some(token)
  {
    assert (Prefix + token)[..|Prefix|] == Prefix;
    assert (Prefix + token)[|Prefix|..] == token;
  }

  /** The refusal for an error thrown by token verification, by the error's name. */
  function ThrownRefusal(errorName: string): (r: Refusal)
    ensures r.status == 401 <==> errorName == "JsonWebTokenError" || errorName == "TokenExpiredError"
    ensures errorName == "JsonWebTokenError" ==> r.message == InvalidTokenMessage
    ensures errorName == "TokenExpiredError" ==> r.message == ExpiredMessage
    ensures r.status != 401 ==> r == Refusal(500, AuthErrorMessage)
  {
    if errorName == "JsonWebTokenError" then Refusal(401, InvalidTokenMessage)
    else if errorName == "TokenExpiredError" then Refusal(401, ExpiredMessage)
    else Refusal(500, AuthErrorMessage)
  }

  /**
    `authenticate`: the user the request continues with, or the refusal.
    `verify` and `lookup` stand for `jwt.verify` and the user query.
  */
  function Authenticate(header: Option<string>, verify: string -> VerifyOutcome, lookup: string -> Lookup): (r: Result<AuthUser, Refusal>)
    ensures BearerToken(header).None? ==> r == Err(Refusal(401, NoTokenMessage))
    ensures r.Ok? <==>
      && BearerToken(header).Some?
      && verify(BearerToken(header).value).Decoded?
      && lookup(verify(BearerToken(header).value).userId).Found?
    ensures r.Ok? ==> r.value == lookup(verify(BearerToken(header).value).userId).user
    ensures r.Err? ==> r.error.status in {401, 500}
    ensures BearerToken(header).Some? && verify(BearerToken(header).value).Thrown? ==>
      r == Err(ThrownRefusal(verify(BearerToken(header).value).errorName))
    ensures BearerToken(header).Some? && verify(BearerToken(header).value).Decoded? ==>
      var found := lookup(verify(BearerToken(header).value).userId);
      && (found.NoUser? ==> r == Err(Refusal(401, UserNotFoundMessage)))
      && (found.LookupFailed? ==> r == Err(Refusal(500, AuthErrorMessage)))
  {
    match BearerToken(header)
    case None => Err(Refusal(401, NoTokenMessage))
    case Some(token) =>
      match verify(token)
      case Thrown(name) => Err(ThrownRefusal(name))
      case Decoded(userId) =>
        match lookup(userId)
        case Found(user) => Ok(user)
        case NoUser => Err(Refusal(401, UserNotFoundMessage))
        case LookupFailed => Err(Refusal(500, AuthErrorMessage))
  }

  /** `optionalAuth`: never refuses; the request continues with the user or with none. */
  function OptionalAuth(header: Option<string>, verify: string -> VerifyOutcome, lookup: string -> Lookup): (u: Option<AuthUser>)
    ensures BearerToken(header).None? ==> u == None
  {
    match BearerToken(header)
    case None => None
    case Some(token) =>
      match verify(token)
      case Thrown(_) => None
      case Decoded(userId) =>
        match lookup(userId)
        case Found(user) => Some(user)
        case NoUser => None
        case LookupFailed => None
  }

  /** `optionalAuth` attaches exactly the user `authenticate` would admit, and nothing where it would refuse. */
  lemma OptionalAuthAgrees(header: Option<string>, verify: string -> VerifyOutcome, lookup: string -> Lookup)
    ensures var a := Authenticate(header, verify, lookup);
            OptionalAuth(header, verify, lookup) == if a.Ok? then Some(a.value) else None
  {
  }

  /** `authorize(roles)`: the request passes, or is refused. */
  function Authorize(roles: seq<Role>, user: Option<AuthUser>): (r: Option<Refusal>)
    ensures user.None? ==> r == Some(Refusal(401, AuthRequiredMessage))
    ensures r.None? <==> user.Some? && (roles == [] || user.value.role in roles)
    ensures user.Some? && r.Some? ==> r.value == Refusal(403, ForbiddenMessage)
  {
    if user.None? then Some(Refusal(401, AuthRequiredMessage))
    else if |roles| > 0 && user.value.role !in roles then Some(Refusal(403, ForbiddenMessage))
    else None
  }

  /** An empty role list admits every authenticated user. */
  lemma AuthorizeEmptyRoles(user: AuthUser)
    ensures Authorize([], Some(user)).None?
  {
  }

  /** What the owner lookup of `authorizeOwner` gives: an owner id (None for null), or a thrown error. */
  datatype OwnerLookup = Owner(ownerId: Option<string>) | OwnerLookupFailed

  /** A JavaScript owner id is truthy when it is present and non-empty. */
  predicate HasOwner(o: OwnerLookup)
  {
    o.Owner? && o.ownerId.Some? && o.ownerId.value != []
  }

  predicate MayModify(user: AuthUser, ownerId: string)
  {
    user.id == ownerId || user.role == Admin
  }

  /**
    `authorizeOwner(getResourceOwnerId)`. The lookup is a function of the request and only
    consulted once a user is present, so a missing user is refused before any lookup.
  */
  function AuthorizeOwner(user: Option<AuthUser>, lookupOwner: () -> OwnerLookup): (r: Option<Refusal>)
    ensures user.None? ==> r == Some(Refusal(401, AuthRequiredMessage))
    ensures user.Some? && lookupOwner() == OwnerLookupFailed ==> r == Some(Refusal(500, AuthorizationErrorMessage))
    ensures user.Some? && lookupOwner().Owner? && !HasOwner(lookupOwner()) ==> r == Some(Refusal(404, ResourceNotFoundMessage))
    ensures r.None? <==> user.Some? && HasOwner(lookupOwner()) && MayModify(user.value, lookupOwner().ownerId.value)
    ensures user.Some? && HasOwner(lookupOwner()) && r.Some? ==> r.value == Refusal(403, NotOwnerMessage)
  {
    if user.None? then Some(Refusal(401, AuthRequiredMessage))
    else
      match lookupOwner()
      case OwnerLookupFailed => Some(Refusal(500, AuthorizationErrorMessage))
      case Owner(ownerId) =>
        if ownerId.None? || ownerId.value == [] then Some(Refusal(404, ResourceNotFoundMessage))
        else if user.value.id != ownerId.value && user.value.role != Admin then Some(Refusal(403, NotOwnerMessage))
        else None
  }

  /** An administrator may modify every resource that exists. */
  lemma AdminModifiesAll(admin: AuthUser, lookupOwner: () -> OwnerLookup)
    requires admin.role == Admin && HasOwner(lookupOwner())
    ensures AuthorizeOwner(Some(admin), lookupOwner).None?
  {
  }
}
