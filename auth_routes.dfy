/** Registration, login, the current-user profile and logout, within the
    resolved tenant. Token issue and password comparison are parameters
    standing for the signing and hashing libraries. */
module AuthRoutes {
  import opened Common
  import opened Text
  import opened Seqs
  import opened TenantModel
  import opened UserModel
  import opened Store
  import opened Http
  import opened AuthMiddleware

  datatype Credentials = Credentials(email: Option<string>, password: Option<string>, name: Option<string>)

  /** The response carrying a fresh session: the public profile and the
      token, which is also set as the `token` cookie. */
  function Session(status: nat, u: User, token: string): Response {
    Response(status, SessionBody(Public(u), token), "application/json", None, SetTokenCookie(token))
  }

  /** The key login looks a user up by: lower-cased, then trimmed. */
  function LoginKey(email: string): (r: string)
    ensures IsLower(r) && Trim(r) == r
    ensures IsLower(email) && Trim(email) == email ==> r == email
  {
    TrimLowerCommute(email);
    TrimSlice(email);
    LowerIsLower(Trim(email));
    TrimSlice(Lower(email));
    TrimNoop(Trim(Lower(email)));
    LowerIsLower(email);
    Trim(Lower(email))
  }

  /** `POST /api/auth/register`: email, password and name are required; the
      lower-cased email must be new within the tenant; the stored email is
      lower-cased but not trimmed, and no role is set. */
  method Register(db: Database, ctx: Context, input: Credentials, issue: Id -> string) returns (r: Reply)
    requires db.Valid()
    modifies db
    ensures db.Valid()
    ensures db.tenants == old(db.tenants) && db.resources == old(db.resources)
    ensures ctx.tenant.None? ==> r == TenantRequired
    ensures ctx.tenant.Some? && !(Truthy(input.email) && Truthy(input.password) && Truthy(input.name)) ==>
              r == Fail(400, "Email, password, and name are required")
    ensures ctx.tenant.Some? && Truthy(input.email) && Truthy(input.password) && Truthy(input.name)
            && FindUserByEmail(old(db.users), Lower(input.email.value), ctx.tenant.value.id).Some? ==>
              r == Fail(400, "User already exists")
    ensures r.Send? && r.response.status == 201 <==>
              ctx.tenant.Some? && Truthy(input.email) && Truthy(input.password) && Truthy(input.name)
              && FindUserByEmail(old(db.users), Lower(input.email.value), ctx.tenant.value.id).None?
    ensures !(r.Send? && r.response.status == 201) ==> db.users == old(db.users)
    ensures r.Send? && r.response.status == 201 ==>
              exists u :: && db.users == old(db.users) + [u]
                          && u.tenantId == ctx.tenant.value.id && u.email == Lower(input.email.value)
                          && u.password == input.password.value && u.name == input.name && u.role == None
                          && r == Send(Session(201, u, issue(u.id)))
  {
    if ctx.tenant.None? {
      return TenantRequired;
    }
    if !Truthy(input.email) || !Truthy(input.password) || !Truthy(input.name) {
      return Fail(400, "Email, password, and name are required");
    }
    var email := Lower(input.email.value);
    if FindUserByEmail(db.users, email, ctx.tenant.value.id).Some? {
      return Fail(400, "User already exists");
    }
    var created := db.InsertUser(ctx.tenant.value.id, email, input.name, None, input.password.value);
    if created.Accepted? {
      r := Send(Session(201, created.doc, issue(created.doc.id)));
    } else {
      // A truthy email stays non-empty when lower-cased.
      assert false;
    }
  }

  /** `POST /api/auth/login`: the user is looked up by the trimmed,
      lower-cased email within the tenant only; an unknown user and a wrong
      password get the same answer. The session is issued for the very user
      whose password was compared, the first match of the lookup.
      `matches(supplied, stored)` stands for the password comparison. */
  function Login(ctx: Context, us: seq<User>, input: Credentials, issue: Id -> string,
                 matches: (string, string) -> bool): (r: Reply)
    ensures ctx.tenant.None? ==> r == TenantRequired
    ensures ctx.tenant.Some? && !(Truthy(input.email) && Truthy(input.password)) ==>
              r == Fail(400, "Email and password are required")
    ensures r.Send? && r.response.status == 200 <==>
              && ctx.tenant.Some? && Truthy(input.email) && Truthy(input.password)
              && var found := FindUserByEmail(us, LoginKey(input.email.value), ctx.tenant.value.id);
              && found.Some? && matches(input.password.value, found.value.password)
    ensures r.Send? && r.response.status == 200 ==>
              var found := FindUserByEmail(us, LoginKey(input.email.value), ctx.tenant.value.id);
              && found.Some? && found.value in us && found.value.tenantId == ctx.tenant.value.id
              && found.value.email == LoginKey(input.email.value)
              && r == Send(Session(200, found.value, issue(found.value.id)))
    ensures (ctx.tenant.Some? && Truthy(input.email) && Truthy(input.password)
             && !(r.Send? && r.response.status == 200)) ==> r == Fail(401, "Invalid credentials")
  {
    if ctx.tenant.None? then TenantRequired
    else if !Truthy(input.email) || !Truthy(input.password) then Fail(400, "Email and password are required")
    else match FindUserByEmail(us, LoginKey(input.email.value), ctx.tenant.value.id)
      case None => Fail(401, "Invalid credentials")
      case Some(u) =>
        if !matches(input.password.value, u.password) then Fail(401, "Invalid credentials")
        else Send(Session(200, u, issue(u.id)))
  }

  /** An unknown email and a wrong password are indistinguishable. */
  lemma LoginFailuresAlike(ctx: Context, us: seq<User>, unknown: Credentials, wrong: Credentials,
                           issue: Id -> string, matches: (string, string) -> bool)
    requires ctx.tenant.Some?
    requires Truthy(unknown.email) && Truthy(unknown.password)
    requires FindUserByEmail(us, LoginKey(unknown.email.value), ctx.tenant.value.id).None?
    requires Truthy(wrong.email) && Truthy(wrong.password)
    requires var u := FindUserByEmail(us, LoginKey(wrong.email.value), ctx.tenant.value.id);
             u.Some? && !matches(wrong.password.value, u.value.password)
    ensures Login(ctx, us, unknown, issue, matches) == Login(ctx, us, wrong, issue, matches)
    ensures Login(ctx, us, unknown, issue, matches) == Fail(401, "Invalid credentials")
  {
  }

  /** A user of one tenant cannot log in under another: the lookup never
      leaves the resolved tenant. */
  lemma LoginScopedToTenant(ctx: Context, us: seq<User>, input: Credentials, issue: Id -> string,
                            matches: (string, string) -> bool)
    requires ctx.tenant.Some?
    requires forall u :: u in us ==> u.tenantId != ctx.tenant.value.id
    ensures !(Login(ctx, us, input, issue, matches).Send? && Login(ctx, us, input, issue, matches).response.status == 200)
  {
  }

  /** Registering and then logging in with the same credentials succeeds
      when the email has no white space at its ends (and the password
      comparison accepts the stored password). */
  lemma RegisterThenLogin(ctx: Context, us: seq<User>, u: User, input: Credentials, issue: Id -> string,
                          matches: (string, string) -> bool)
    requires ctx.tenant.Some? && Truthy(input.email) && Truthy(input.password)
    requires FindUserByEmail(us, Lower(input.email.value), ctx.tenant.value.id).None?
    requires u.tenantId == ctx.tenant.value.id && u.email == Lower(input.email.value)
    requires u.password == input.password.value && matches(u.password, u.password)
    requires Trim(Lower(input.email.value)) == Lower(input.email.value)
    ensures Login(ctx, us + [u], input, issue, matches) == Send(Session(200, u, issue(u.id)))
  {
    var t := ctx.tenant.value.id;
    var e := Lower(input.email.value);
    FindAppendHit(us, u, (x: User) => x.email == e && x.tenantId == t);
  }

  /** An email registered with leading white space can never log in: the
      registered record keeps the space, the login key drops it. */
  lemma PaddedEmailCannotLogIn(ctx: Context, us: seq<User>, u: User, input: Credentials, issue: Id -> string,
                               matches: (string, string) -> bool)
    requires ctx.tenant.Some? && Truthy(input.email) && Truthy(input.password)
    requires IsSpace(input.email.value[0])
    requires FindUserByEmail(us, LoginKey(input.email.value), ctx.tenant.value.id).None?
    requires u.tenantId == ctx.tenant.value.id && u.email == Lower(input.email.value)
    ensures Login(ctx, us + [u], input, issue, matches) == Fail(401, "Invalid credentials")
  {
    var t := ctx.tenant.value.id;
    var e := Lower(input.email.value);
    assert e[0] == LowerChar(input.email.value[0]);
    assert |TrimStart(e)| < |e|;
    assert LoginKey(input.email.value) != u.email;
    FindAppendMiss(us, u, (x: User) => x.email == LoginKey(input.email.value) && x.tenantId == t);
  }

  /** `GET /api/auth/me` (after the identity guard): exactly the public
      profile of the authenticated user. */
  function Me(ctx: Context): (r: Reply)
    requires ctx.user.Some?
    ensures r.Send? && r.response.status == 200 && r.response.body.MeBody?
    ensures var p := r.response.body.me; var u := ctx.user.value;
            p.id == u.id && p.email == u.email && p.name == u.name && p.role == u.role
  {
    Send(Json(200, MeBody(Public(ctx.user.value))))
  }

  /** `GET /api/auth/me` behind the identity guard: the guard's refusal, or
      the profile of the user the token names. */
  function MeRoute(req: Request, ctx: Context, us: seq<User>, ts: seq<Tenant>, verify: string -> Verified): (r: Reply)
    ensures Authenticate(req, ctx, us, ts, verify).Stop? ==> r == Authenticate(req, ctx, us, ts, verify).reply
    ensures r.Send? && r.response.status == 200 ==>
              TokenUser(req, us, verify).Some? && r.response.body == MeBody(Public(TokenUser(req, us, verify).value))
  {
    match Authenticate(req, ctx, us, ts, verify)
    case Stop(reply) => reply
    case Next(c) => Me(c)
  }

  /** With a resolved tenant, `/me` only ever shows a user of that tenant. */
  lemma MeShowsTenantUser(req: Request, ctx: Context, us: seq<User>, ts: seq<Tenant>, verify: string -> Verified)
    requires ctx.tenant.Some?
    requires MeRoute(req, ctx, us, ts, verify).Send? && MeRoute(req, ctx, us, ts, verify).response.status == 200
    ensures exists u :: u in us && u.tenantId == ctx.tenant.value.id
                        && MeRoute(req, ctx, us, ts, verify).response.body == MeBody(Public(u))
  {
  }

  /** `POST /api/auth/logout`: always succeeds and clears the cookie. */
  function Logout(): (r: Reply)
    ensures r.Send? && r.response.status == 200 && r.response.cookie == ClearTokenCookie
    ensures r.response.body == MessageBody("Logged out successfully")
  {
    Send(Response(200, MessageBody("Logged out successfully"), "application/json", None, ClearTokenCookie))
  }
}
