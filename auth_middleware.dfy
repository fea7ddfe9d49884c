/** The identity guard: the token comes from a `Bearer` Authorization header
    or else the `token` cookie; a verified token names a user, who must
    belong to the resolved tenant when there is one. Token verification is a
    parameter standing for the signature library. */
module AuthMiddleware {
  import opened Common
  import opened Text
  import opened TenantModel
  import opened UserModel
  import opened Store
  import opened Http

  /** What verifying a token yields: the payload's `userId` (possibly
      missing), or the error the library throws. `OtherError` stands for any
      other thrown error, such as a token used before its `nbf` time. */
  datatype Verified = Decoded(userId: Option<Id>) | JsonWebTokenError | TokenExpiredError | OtherError

  const BearerPrefix := "Bearer "

  /** The token: the text after `Bearer ` when the header starts with it,
      otherwise the cookie. */
  function TokenFrom(req: Request): (r: Option<string>)
    ensures req.authorization.Some? && StartsWith(req.authorization.value, BearerPrefix) ==>
              r.Some? && req.authorization.value == BearerPrefix + r.value
    ensures !(req.authorization.Some? && StartsWith(req.authorization.value, BearerPrefix)) ==>
              r == req.tokenCookie
  {
    if req.authorization.Some? && StartsWith(req.authorization.value, BearerPrefix)
    then Some(req.authorization.value[|BearerPrefix|..])
    else req.tokenCookie
  }

  /** `findById(decoded.userId)`: a payload without a user id finds nothing. */
  function LoadUser(users: seq<User>, userId: Option<Id>): Option<User> {
    if userId.None? then None else FindUserById(users, userId.value)
  }

  /** The user a request's token names: present only when the token is
      non-empty, verifies, and its `userId` finds a user. */
  function TokenUser(req: Request, users: seq<User>, verify: string -> Verified): Option<User> {
    if Truthy(TokenFrom(req)) && verify(TokenFrom(req).value).Decoded?
    then LoadUser(users, verify(TokenFrom(req).value).userId)
    else None
  }

  /** `authMiddleware`. On success the context gains the loaded user and
      nothing else in it changes. */
  function Authenticate(req: Request, ctx: Context, users: seq<User>, tenants: seq<Tenant>,
                        verify: string -> Verified): (r: Step)
    ensures !Truthy(TokenFrom(req)) ==> r == Stop(Fail(401, "Authentication required"))
    ensures Truthy(TokenFrom(req)) && (verify(TokenFrom(req).value).JsonWebTokenError?
                                       || verify(TokenFrom(req).value).TokenExpiredError?)
            ==> r == Stop(Fail(401, "Invalid or expired token"))
    ensures Truthy(TokenFrom(req)) && verify(TokenFrom(req).value).OtherError? ==> r == Stop(PassError)
    ensures TokenUser(req, users, verify).Some?
            && (ctx.tenant.Some? ==> && TokenUser(req, users, verify).value.tenantId == ctx.tenant.value.id
                                     && FindTenantById(tenants, TokenUser(req, users, verify).value.tenantId).Some?)
            ==> r == Next(ctx.(user := TokenUser(req, users, verify)))
    ensures r.Next? ==> exists u :: u in users && r.ctx == ctx.(user := Some(u))
                                    && (ctx.tenant.Some? ==> u.tenantId == ctx.tenant.value.id)
    ensures r.Next? ==> Truthy(TokenFrom(req)) && verify(TokenFrom(req).value).Decoded?
                        && r.ctx.user == LoadUser(users, verify(TokenFrom(req).value).userId)
  {
    var token := TokenFrom(req);
    if !Truthy(token) then Stop(Fail(401, "Authentication required"))
    else match verify(token.value)
      case JsonWebTokenError => Stop(Fail(401, "Invalid or expired token"))
      case TokenExpiredError => Stop(Fail(401, "Invalid or expired token"))
      case OtherError => Stop(PassError)
      case Decoded(userId) =>
        match LoadUser(users, userId)
        case None => Stop(Fail(401, "User not found"))
        case Some(user) =>
          if ctx.tenant.None? then Next(ctx.(user := Some(user)))
          // `populate` yields null for a missing tenant, and reading its
          // `_id` throws.
          else if FindTenantById(tenants, user.tenantId).None? then Stop(PassError)
          else if user.tenantId != ctx.tenant.value.id then Stop(Fail(403, "Access denied: tenant mismatch"))
          else Next(ctx.(user := Some(user)))
  }

  /** A `Bearer ` header decides the token; the cookie is then ignored. */
  lemma BearerIgnoresCookie(req: Request, cookie: Option<string>)
    requires req.authorization.Some? && StartsWith(req.authorization.value, BearerPrefix)
    ensures TokenFrom(req.(tokenCookie := cookie)) == TokenFrom(req)
    ensures TokenFrom(req) == Some(req.authorization.value[7..])
  {
  }

  /** A bare `Bearer ` header carries an empty token, which is refused as
      missing even when a cookie holds a token. */
  lemma BareBearerIsMissingToken(req: Request, ctx: Context, users: seq<User>, tenants: seq<Tenant>,
                                 verify: string -> Verified)
    requires req.authorization == Some(BearerPrefix)
    ensures Authenticate(req, ctx, users, tenants, verify) == Stop(Fail(401, "Authentication required"))
  {
    assert StartsWith(BearerPrefix, BearerPrefix);
    assert BearerPrefix[|BearerPrefix|..] == "";
  }

  /** A verified token whose user does not exist is refused. */
  lemma UnknownUserRefused(req: Request, ctx: Context, users: seq<User>, tenants: seq<Tenant>,
                           verify: string -> Verified)
    requires Truthy(TokenFrom(req)) && verify(TokenFrom(req).value).Decoded?
    requires LoadUser(users, verify(TokenFrom(req).value).userId).None?
    ensures Authenticate(req, ctx, users, tenants, verify) == Stop(Fail(401, "User not found"))
  {
  }

  /** A valid token of a user of one tenant, presented under another
      resolved tenant, is always refused with 403. */
  lemma TenantMismatchRefused(req: Request, ctx: Context, users: seq<User>, tenants: seq<Tenant>,
                              verify: string -> Verified, u: User)
    requires Truthy(TokenFrom(req)) && verify(TokenFrom(req).value).Decoded?
    requires LoadUser(users, verify(TokenFrom(req).value).userId) == Some(u)
    requires ctx.tenant.Some? && u.tenantId != ctx.tenant.value.id
    requires FindTenantById(tenants, u.tenantId).Some?
    ensures Authenticate(req, ctx, users, tenants, verify) == Stop(Fail(403, "Access denied: tenant mismatch"))
  {
  }

  /** With no resolved tenant, any valid token of an existing user is
      accepted, whatever that user's tenant. */
  lemma NoTenantAcceptsAnyUser(req: Request, ctx: Context, users: seq<User>, tenants: seq<Tenant>,
                               verify: string -> Verified, u: User)
    requires ctx.tenant.None?
    requires Truthy(TokenFrom(req)) && verify(TokenFrom(req).value).Decoded?
    requires LoadUser(users, verify(TokenFrom(req).value).userId) == Some(u)
    ensures Authenticate(req, ctx, users, tenants, verify) == Next(ctx.(user := Some(u)))
  {
  }
}

/** The role gate used after the identity guard on admin-only routes. */
module AdminMiddleware {
  import opened Common
  import opened UserModel
  import opened Http

  /** `adminMiddleware`: continue with the context unchanged exactly when
      there is a user whose role is `admin`; otherwise 403. */
  function RequireAdmin(ctx: Context): (r: Step)
    ensures r.Next? <==> ctx.user.Some? && ctx.user.value.role == Some("admin")
    ensures r.Next? ==> r.ctx == ctx
    ensures r.Stop? ==> r.reply == Fail(403, "Admin access required")
  {
    if ctx.user.Some? && IsAdmin(ctx.user.value.role) then Next(ctx)
    else Stop(Fail(403, "Admin access required"))
  }
}
