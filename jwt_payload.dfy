/** Token claims, the abstract JWT codec, and the permission guard. The
    signing and verification algorithm is not modelled: `encode` and
    `decode` are parameters, and the clock is the explicit `now` (seconds
    since the epoch). */
module JwtPayload {
  import opened Outcomes
  import opened Models

  type Token = string

  /** The claims a decoded token carries. Any claim may be absent. `exp`
      and `iat` are whole seconds: the encoder turns the datetimes into
      integer timestamps, dropping the fraction. */
  datatype Payload = Payload(
    userId: Option<int>,
    userRole: Option<string>,
    exp: Option<int>,
    iat: Option<int>,
    tokenType: Option<string>)

  /** What `jwt.decode(token, SECRET_KEY, algorithms=['HS256'])` does:
      return the claims, or raise `ExpiredSignatureError` or another
      `InvalidTokenError`. */
  datatype Decoded = Decoded(payload: Payload) | ExpiredSignature | InvalidToken

  /** The decoder with the server's secret, at a given instant. */
  type Decoder = (Token, real) -> Decoded

  /** The encoder with the server's secret. */
  type Encoder = Payload -> Token

  const AccessLifetime: int := 15 * 60
  const RefreshLifetime: int := 7 * 24 * 60 * 60

  const LoginRequired := "Lütfen giriş yapınız."
  const PermissionDenied := "Yetkiniz yok"
  /** `user.role.name` on a user whose role is None. */
  const NoRoleName := "'NoneType' object has no attribute 'name'"

  /** `custom_permission_required(required)(func)` applied to a call made by
      `caller` (the `info.context.user`) with arguments `args`: an
      unauthenticated caller gets the login error, an authenticated caller
      without the permission the permission error, and anyone else the
      wrapped call itself, with its arguments unchanged. */
  function Guard<A, R>(required: string, func: (Identity, A) -> Outcome<R>, caller: Identity, args: A): (r: Outcome<R>)
    ensures !IsAuthenticated(caller) ==> r == Raised(LoginRequired)
    ensures IsAuthenticated(caller) && !HasPerm(caller.user, required) ==> r == Raised(PermissionDenied)
    ensures IsAuthenticated(caller) && HasPerm(caller.user, required) ==> r == func(caller, args)
  {
    if !IsAuthenticated(caller) then Raised(LoginRequired)
    else if !HasPerm(caller.user, required) then Raised(PermissionDenied)
    else func(caller, args)
  }

  /** A rejected call never reaches the wrapped function: swapping in any
      other function changes nothing. */
  lemma GuardRejectionIgnoresOperation<A, R>(required: string, f: (Identity, A) -> Outcome<R>,
                                             g: (Identity, A) -> Outcome<R>, caller: Identity, args: A)
    requires !IsAuthenticated(caller) || !HasPerm(caller.user, required)
    ensures Guard(required, f, caller, args) == Guard(required, g, caller, args)
    ensures Guard(required, f, caller, args).Raised?
  {
  }

  /** The wrapped call goes through exactly for authenticated callers whose
      role grants the permission, and for every authenticated superuser. */
  lemma GuardAdmits<A, R>(required: string, func: (Identity, A) -> Outcome<R>, caller: Identity, args: A)
    ensures Guard(required, func, caller, args) == func(caller, args) || Guard(required, func, caller, args).Raised?
    ensures caller.Authenticated? && caller.user.isSuperuser ==> Guard(required, func, caller, args) == func(caller, args)
    ensures caller.Authenticated? && !caller.user.isSuperuser && caller.user.role.Some?
            && (exists p :: p in caller.user.role.value.permissions && p.codename == required)
            ==> Guard(required, func, caller, args) == func(caller, args)
  {
  }

  /** The claims `generate_access_token` / `generate_refresh_token` put in a
      token issued at `now` with the given lifetime and type. Reading
      `user.role.name` raises when the user has no role. */
  function IssuePayload(user: User, now: real, lifetime: int, tokenType: string): (r: Outcome<Payload>)
    ensures r.Ok? <==> user.role.Some?
    ensures r.Raised? ==> r.message == NoRoleName
    ensures r.Ok? ==>
              && r.value.userId == Some(user.id)
              && r.value.userRole == Some(user.role.value.name)
              && r.value.tokenType == Some(tokenType)
              && r.value.iat.Some?
              && r.value.iat.value as real <= now < r.value.iat.value as real + 1.0
              && r.value.exp == Some(r.value.iat.value + lifetime)
  {
    if user.role.None? then Raised(NoRoleName)
    else
      var issued := now.Floor;
      Ok(Payload(Some(user.id), Some(user.role.value.name), Some(issued + lifetime), Some(issued), Some(tokenType)))
  }

  /** The access-token claims: type 'access', expiring 15 minutes after the
      second of issue. */
  function AccessPayload(user: User, now: real): (r: Outcome<Payload>)
    ensures r.Ok? <==> user.role.Some?
    ensures r.Ok? ==> r.value.tokenType == Some("access") && r.value.iat.Some?
                      && r.value.exp == Some(r.value.iat.value + 900)
  {
    IssuePayload(user, now, AccessLifetime, "access")
  }

  /** The refresh-token claims: type 'refresh', expiring 7 days after the
      second of issue. */
  function RefreshPayload(user: User, now: real): (r: Outcome<Payload>)
    ensures r.Ok? <==> user.role.Some?
    ensures r.Ok? ==> r.value.tokenType == Some("refresh") && r.value.iat.Some?
                      && r.value.exp == Some(r.value.iat.value + 604800)
  {
    IssuePayload(user, now, RefreshLifetime, "refresh")
  }

  /** Issued at the same instant, the two payloads name the same user, role
      and issue time and differ only in their expiry and their type. */
  lemma AccessAndRefreshDifferOnlyInExpiryAndType(user: User, now: real)
    requires user.role.Some?
    ensures AccessPayload(user, now).Ok? && RefreshPayload(user, now).Ok?
    ensures var a := AccessPayload(user, now).value;
            RefreshPayload(user, now).value
              == a.(exp := Some(a.iat.value + RefreshLifetime), tokenType := Some("refresh"))
  {
  }

  /** `generate_access_token`: the encoded access payload. */
  function GenerateAccessToken(encode: Encoder, user: User, now: real): (r: Outcome<Token>)
    ensures r.Ok? <==> user.role.Some?
    ensures r.Raised? ==> r.message == NoRoleName
    ensures r.Ok? ==> r.value == encode(AccessPayload(user, now).value)
  {
    match AccessPayload(user, now)
    case Ok(p) => Ok(encode(p))
    case Raised(m) => Raised(m)
  }

  /** `generate_refresh_token`: the encoded refresh payload. */
  function GenerateRefreshToken(encode: Encoder, user: User, now: real): (r: Outcome<Token>)
    ensures r.Ok? <==> user.role.Some?
    ensures r.Raised? ==> r.message == NoRoleName
    ensures r.Ok? ==> r.value == encode(RefreshPayload(user, now).value)
  {
    match RefreshPayload(user, now)
    case Ok(p) => Ok(encode(p))
    case Raised(m) => Raised(m)
  }
}
