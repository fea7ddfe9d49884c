/** The request signals the core reads, the per-request context the
    middleware fills in, and the responses the handlers send. Response bodies
    are the JSON projections the routes build, never whole stored records
    where the routes project. */
module Http {
  import opened Common
  import opened TenantModel
  import opened ResourceModel
  import opened UserModel

  /** The parts of an incoming request the core consults. */
  datatype Request = Request(
    tenantHeader: Option<string>,   // X-Tenant-ID
    path: string,                   // req.path
    host: Option<string>,           // Host header
    authorization: Option<string>,  // Authorization header
    tokenCookie: Option<string>,    // the `token` cookie
    origin: Option<string>)         // Origin header

  /** The per-request context: the resolved tenant and the authenticated user. */
  datatype Context = Context(tenant: Option<Tenant>, user: Option<User>)

  /** A user's public profile, `{ id, email, name, role }`. */
  datatype PublicUser = PublicUser(id: Id, email: string, name: Option<string>, role: Option<string>)

  /** A user as the user-management routes return it, with its timestamps. */
  datatype UserView = UserView(id: Id, email: string, name: Option<string>, role: Option<string>,
                               createdAt: nat, updatedAt: nat)

  /** A stored user without its password (`select('-password')`). */
  datatype UserDoc = UserDoc(id: Id, tenantId: Id, email: string, name: Option<string>, role: Option<string>,
                             createdAt: nat, updatedAt: nat)

  /** A tenant in the directory listing: `_id` is kept by `select`. */
  datatype TenantSummary = TenantSummary(id: Id, name: string, slug: string, brand: Brand)

  /** The resolved tenant's public profile. */
  datatype TenantProfile = TenantProfile(name: string, slug: string, brand: Brand, theme: Theme)

  datatype Body =
    | ErrorBody(error: string)
    | MessageBody(message: string)
    | ResourcesBody(resources: seq<Resource>)
    | ResourceBody(resource: Resource)
    | UserDocsBody(docs: seq<UserDoc>)
    | UserViewsBody(views: seq<UserView>)
    | UserViewBody(view: UserView)
    | SessionBody(user: PublicUser, token: string)
    | MeBody(me: PublicUser)
    | TenantsBody(tenants: seq<TenantSummary>)
    | ProfileBody(profile: TenantProfile)
    | CssBody(css: string)
    | HealthBody(status: string, tenantSlug: Option<string>)
    | ApiIndexBody
    | NoRouteBody    // the framework's default page for an unmatched route
    | EmptyBody      // no content

  /** What a response does to the `token` cookie. */
  datatype CookieChange = KeepCookie | SetTokenCookie(token: string) | ClearTokenCookie

  datatype Response = Response(status: nat, body: Body, contentType: string,
                               cacheControl: Option<string>, cookie: CookieChange)

  /** A handler either sends a response or passes a thrown error on to the
      framework's error handler (`next(err)`), an opaque failure here. */
  datatype Reply = Send(response: Response) | PassError

  /** A middleware either continues with a (possibly extended) context or
      ends the request with a reply. */
  datatype Step = Next(ctx: Context) | Stop(reply: Reply)

  function Json(status: nat, body: Body): Response {
    Response(status, body, "application/json", None, KeepCookie)
  }

  function Fail(status: nat, message: string): Reply {
    Send(Json(status, ErrorBody(message)))
  }

  const TenantRequired := Fail(400, "Tenant required")

  function Public(u: User): PublicUser {
    PublicUser(u.id, u.email, u.name, u.role)
  }

  function View(u: User): UserView {
    UserView(u.id, u.email, u.name, u.role, u.createdAt, u.updatedAt)
  }

  function WithoutPassword(u: User): UserDoc {
    UserDoc(u.id, u.tenantId, u.email, u.name, u.role, u.createdAt, u.updatedAt)
  }
}
