/** `JWTAuthenticationMiddleware.resolve`: the chain of early exits that
    decides whether `request.user` becomes a user or Anonymous, and the
    calls it makes to the next resolver. */
module Middleware {
  import opened Outcomes
  import opened Strings
  import opened Models
  import opened JwtPayload

  /** The branch of `resolve` a request takes. */
  datatype Branch =
    | NoHeader                 // empty or missing Authorization header
    | NotBearer                // not exactly two words, or the first is not "Bearer"
    | NotAccess                // decoded, but `token_type` is not 'access'
    | NoUserId                 // `user_id` missing or falsy
    | BadToken                 // decode raised (expired or invalid)
    | UserMissing              // no user with that id
    | RoleMissing              // user found, but logging `user.role.name` raised
    | Resolved(user: User)     // user attached to the request

  /** The branch taken for `header` when the token is decoded at `now`
      against the user table `users`. */
  function Classify(header: string, decode: Decoder, now: real, users: map<int, User>): Branch {
    if header == "" then NoHeader
    else
      var parts := Split(header);
      if |parts| != 2 || parts[0] != "Bearer" then NotBearer
      else match decode(parts[1], now)
        case ExpiredSignature => BadToken
        case InvalidToken => BadToken
        case Decoded(payload) =>
          if payload.tokenType != Some("access") then NotAccess
          else if !TruthyInt(payload.userId) then NoUserId
          else if payload.userId.value !in users then UserMissing
          else if users[payload.userId.value].role.None? then RoleMissing
          else Resolved(users[payload.userId.value])
  }

  /** The identity `resolve` leaves on the request. */
  function IdentityOf(branch: Branch): Identity {
    if branch.Resolved? then Authenticated(branch.user) else Anonymous
  }

  /** The branches that call `next` inside the `try`, so that an exception
      from `next` is caught and `next` runs once more. */
  predicate ReturnsInsideTry(branch: Branch) {
    branch.NotBearer? || branch.NotAccess? || branch.NoUserId?
  }

  /** A request authenticates exactly when its header is two words, "Bearer"
      and a token that decodes to an access token naming a user of the table
      who has a role; the user attached is that table row. */
  lemma {:induction false} AuthenticatesExactly(header: string, decode: Decoder, now: real, users: map<int, User>)
    ensures IdentityOf(Classify(header, decode, now, users)).Authenticated? <==>
              && |Split(header)| == 2 && Split(header)[0] == "Bearer"
              && decode(Split(header)[1], now).Decoded?
              && var p := decode(Split(header)[1], now).payload;
                 && p.tokenType == Some("access")
                 && TruthyInt(p.userId) && p.userId.value in users
                 && users[p.userId.value].role.Some?
    ensures IdentityOf(Classify(header, decode, now, users)).Authenticated? ==>
              var p := decode(Split(header)[1], now).payload;
              IdentityOf(Classify(header, decode, now, users)).user == users[p.userId.value]
  {
    if header == "" {
      SplitBlank(header);
    }
  }

  /** Tokens that are not access tokens, refresh tokens among them, never
      authenticate a request, whatever the header around them. */
  lemma NonAccessTokenNeverAuthenticates(p: string, token: Token, q: string, decode: Decoder, now: real,
                                         users: map<int, User>)
    requires IsBlank(p) && IsBlank(q) && IsWord(token)
    requires decode(token, now).Decoded? && decode(token, now).payload.tokenType != Some("access")
    ensures Classify(p + "Bearer " + token + q, decode, now, users) == NotAccess
  {
    var header := p + "Bearer " + token + q;
    assert header == p + "Bearer" + " " + token + q;
    assert IsWord("Bearer");
    SplitTwoWords(p, "Bearer", " ", token, q);
  }

  /** A user without a role is never attached: reading its role's name
      raises and the request continues as Anonymous. */
  lemma UserWithoutRoleStaysAnonymous(header: string, decode: Decoder, now: real, users: map<int, User>)
    requires Classify(header, decode, now, users) != NoHeader
    requires |Split(header)| == 2 && Split(header)[0] == "Bearer"
    requires decode(Split(header)[1], now).Decoded?
    requires var p := decode(Split(header)[1], now).payload;
             p.tokenType == Some("access") && TruthyInt(p.userId) && p.userId.value in users
             && users[p.userId.value].role.None?
    ensures Classify(header, decode, now, users) == RoleMissing
    ensures IdentityOf(Classify(header, decode, now, users)) == Anonymous
  {
  }

  /** `is_active` is never consulted: deactivating a user changes only the
      copy that gets attached, not whether it is attached. */
  lemma ActiveFlagIgnored(header: string, decode: Decoder, now: real, users: map<int, User>, id: int, active: bool)
    requires id in users
    requires forall k :: k in users ==> users[k].id == k
    ensures var users' := users[id := users[id].(isActive := active)];
            && IdentityOf(Classify(header, decode, now, users')).Authenticated?
                 == IdentityOf(Classify(header, decode, now, users)).Authenticated?
            && (Classify(header, decode, now, users).Resolved? ==>
                  var u := Classify(header, decode, now, users).user;
                  Classify(header, decode, now, users').user
                    == if u.id == id then u.(isActive := active) else u)
  {
    var users' := users[id := users[id].(isActive := active)];
    if Classify(header, decode, now, users).Resolved? {
      AuthenticatesExactly(header, decode, now, users);
      AuthenticatesExactly(header, decode, now, users');
    }
  }

  /** The GraphQL request object; `authorization` is the value of the
      `HTTP_AUTHORIZATION` header, "" when absent. */
  class Request {
    const authorization: string
    var user: Identity

    constructor (authorization: string)
      ensures this.authorization == authorization && user == Anonymous
    {
      this.authorization := authorization;
      user := Anonymous;
    }
  }

  class JWTAuthenticationMiddleware {
    const headerPrefix: string

    constructor ()
      ensures headerPrefix == "Bearer"
    {
      headerPrefix := "Bearer";
    }

    /** `resolve(next, root, info, **args)`. `next` sees the identity on the
        request at the moment it is called; `args` stands for `root` and
        `args` together. Returns what the last call to `next` returned, and
        every call made to `next`, in order. */
    method Resolve<A, R>(request: Request, next: (Identity, A) -> Outcome<R>, args: A,
                         decode: Decoder, now: real, users: map<int, User>)
      returns (r: Outcome<R>, calls: seq<(Identity, A)>)
      requires headerPrefix == "Bearer"
      modifies request
      ensures var branch := Classify(request.authorization, decode, now, users);
              && request.user == IdentityOf(branch)
              && (ReturnsInsideTry(branch) && next(Anonymous, args).Raised? ==>
                    calls == [(Anonymous, args), (Anonymous, args)])
              && (!(ReturnsInsideTry(branch) && next(Anonymous, args).Raised?) ==>
                    calls == [(request.user, args)])
              && r == next(request.user, args)
    {
      var header := request.authorization;
      if header == "" {
        request.user := Anonymous;
        r := next(request.user, args);
        return r, [(request.user, args)];
      }
      calls := [];
      // The body of the `try`: each early return that raises falls into the
      // generic handler.
      var parts := Split(header);
      var caught := false;
      if |parts| != 2 || parts[0] != headerPrefix {
        request.user := Anonymous;
        r := next(request.user, args);
        calls := calls + [(request.user, args)];
        if r.Ok? { return; }
        caught := true;
      } else {
        var token := parts[1];
        match decode(token, now)
        case ExpiredSignature =>
          request.user := Anonymous;
        case InvalidToken =>
          request.user := Anonymous;
        case Decoded(payload) =>
          if payload.tokenType != Some("access") {
            request.user := Anonymous;
            r := next(request.user, args);
            calls := calls + [(request.user, args)];
            if r.Ok? { return; }
            caught := true;
          } else if !TruthyInt(payload.userId) {
            request.user := Anonymous;
            r := next(request.user, args);
            calls := calls + [(request.user, args)];
            if r.Ok? { return; }
            caught := true;
          } else if payload.userId.value !in users {
            request.user := Anonymous;
          } else {
            var user := users[payload.userId.value];
            request.user := Authenticated(user);
            if user.role.None? {
              // The success log reads `user.role.name`, which raises.
              request.user := Anonymous;
            }
          }
      }
      if caught {
        request.user := Anonymous;
      }
      r := next(request.user, args);
      calls := calls + [(request.user, args)];
    }
  }
}
