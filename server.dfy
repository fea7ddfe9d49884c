/** The application's request pipeline: the CORS origin rule, then the root
    index (before tenant resolution), then tenant resolution, the health
    report and the three mounted routers. Which route a path selects is an
    input here. */
module Server {
  import opened Common
  import opened Text
  import opened Seqs
  import opened TenantModel
  import opened Store
  import opened Http
  import opened TenantContext
  import opened ResourceRoutes
  import opened TenantRoutes
  import opened ThemeRoutes

  /** The configured origins: the comma-separated setting with empty
      entries dropped; an unset setting reads as the empty string. */
  function AllowedOrigins(setting: Option<string>): (r: seq<string>)
    ensures forall o :: o in r <==> o != "" && o in Split(Or(setting, ""), ',')
    ensures forall k :: 0 <= k < |r| ==> r[k] != "" && ',' !in r[k]
  {
    var parts := Split(Or(setting, ""), ',');
    var r := Filter(parts, (o: string) => o != "");
    forall k | 0 <= k < |r| ensures ',' !in r[k] {
      assert r[k] in parts;
    }
    r
  }

  /** The CORS origin decision: no (or an empty) Origin header, or an empty
      allowed list, admits the request; otherwise the origin must be listed
      exactly. */
  function CorsAllows(origin: Option<string>, env: Env): (r: bool)
    ensures r <==> !Truthy(origin)
                   || (forall o :: o in Split(Or(env.allowedOrigins, ""), ',') ==> o == "")
                   || origin.value in Split(Or(env.allowedOrigins, ""), ',')
  {
    var allowed := AllowedOrigins(env.allowedOrigins);
    var parts := Split(Or(env.allowedOrigins, ""), ',');
    assert |allowed| == 0 <==> forall o :: o in parts ==> o == "" by {
      assert forall o :: o in parts && o != "" ==> o in allowed;
      if |allowed| > 0 {
        assert allowed[0] in allowed;
      }
    }
    !Truthy(origin) || |allowed| == 0 || origin.value in allowed
  }

  /** Writing a list of origins into the setting and reading it back gives
      the same list. */
  lemma {:induction false} ConfiguredOriginsRoundTrip(origins: seq<string>)
    requires |origins| >= 1
    requires forall k :: 0 <= k < |origins| ==> origins[k] != "" && ',' !in origins[k]
    ensures AllowedOrigins(Some(Join(origins, ','))) == origins
  {
    SplitJoin(origins, ',');
    FilterAll(origins, (o: string) => o != "");
  }

  /** With a configured list, exactly the listed origins are admitted. */
  lemma OnlyListedOrigins(env: Env, origins: seq<string>, origin: string)
    requires |origins| >= 1
    requires forall k :: 0 <= k < |origins| ==> origins[k] != "" && ',' !in origins[k]
    requires env.allowedOrigins == Some(Join(origins, ','))
    requires origin != ""
    ensures CorsAllows(Some(origin), env) <==> origin in origins
  {
    ConfiguredOriginsRoundTrip(origins);
  }

  /** A setting made only of commas (including an unset or empty one)
      admits every origin. */
  lemma {:induction false} OnlyCommasAdmitAll(env: Env, origin: Option<string>)
    requires forall k :: 0 <= k < |Or(env.allowedOrigins, "")| ==> Or(env.allowedOrigins, "")[k] == ','
    ensures AllowedOrigins(env.allowedOrigins) == []
    ensures CorsAllows(origin, env)
  {
    var parts := Split(Or(env.allowedOrigins, ""), ',');
    CommasSplitEmpty(Or(env.allowedOrigins, ""));
    assert forall k :: 0 <= k < |parts| ==> parts[k] in parts;
    FilterNone(parts, (o: string) => o != "");
  }

  lemma {:induction false} CommasSplitEmpty(s: string)
    requires forall k :: 0 <= k < |s| ==> s[k] == ','
    ensures forall p :: p in Split(s, ',') ==> p == ""
  {
    if s != [] {
      CommasSplitEmpty(s[1..]);
    }
  }

  /** `GET /api/health`: the resolved tenant's slug when it is non-empty,
      otherwise null. */
  function Health(ctx: Context): (r: Reply)
    ensures r.Send? && r.response.status == 200 && r.response.body.HealthBody? && r.response.body.status == "ok"
    ensures r.response.body.tenantSlug.Some? <==> ctx.tenant.Some? && ctx.tenant.value.slug != ""
    ensures r.response.body.tenantSlug.Some? ==> r.response.body.tenantSlug.value == ctx.tenant.value.slug
  {
    var slug := if ctx.tenant.Some? && ctx.tenant.value.slug != "" then Some(ctx.tenant.value.slug) else None;
    Send(Json(200, HealthBody("ok", slug)))
  }

  /** A request resolved to a tenant reports the normalised slug. */
  lemma HealthReportsResolvedSlug(req: Request, directory: seq<Tenant>, ctx: Context)
    requires Resolve(req, directory).Resolved?
    requires ctx.tenant == Some(Resolve(req, directory).tenant)
    ensures Health(ctx).response.body.tenantSlug == Normalise(SlugCandidate(req))
  {
  }

  /** The routes the application serves, as the framework would select them
      from the method and path. */
  datatype Route =
    | Preflight   // an `OPTIONS` request, which the CORS middleware answers itself
    | Root
    | HealthCheck
    | ListResourcesRoute
    | CreateResourceRoute(body: Option<NewResourceBody>)
    | GetResourceRoute(id: Id)
    | ListTenantsRoute
    | TenantMeRoute
    | ThemeCssRoute
    | Unmounted   // anything else, including the auth and user routers, which are not mounted

  const NoRoute := Send(Response(404, NoRouteBody, "text/html", None, KeepCookie))

  /** The CORS middleware's answer to an admitted preflight: 204, no content,
      and the request goes no further. */
  const PreflightDone := Send(Response(204, EmptyBody, "", None, KeepCookie))

  /** One request through the application. */
  method Handle(db: Database, req: Request, route: Route, env: Env) returns (r: Reply)
    requires db.Valid()
    modifies db
    ensures db.Valid()
    ensures db.tenants == old(db.tenants) && db.users == old(db.users)
    ensures !route.CreateResourceRoute? ==> db.resources == old(db.resources)
    ensures !CorsAllows(req.origin, env) ==> r == PassError
    ensures CorsAllows(req.origin, env) && route.Preflight? ==> r == PreflightDone
    ensures CorsAllows(req.origin, env) && route.Root? ==> r == Send(Json(200, ApiIndexBody))
    ensures CorsAllows(req.origin, env) && !route.Preflight? && !route.Root? && Resolve(req, old(db.tenants)).UnknownTenant? ==>
              r == Fail(404, NotFoundMessage(Resolve(req, old(db.tenants)).slug))
              && db.resources == old(db.resources)
    ensures CorsAllows(req.origin, env) && route.Unmounted? && !Resolve(req, old(db.tenants)).UnknownTenant? ==>
              r == NoRoute
    ensures CorsAllows(req.origin, env) && !route.Preflight? && !route.Root? && !Resolve(req, old(db.tenants)).UnknownTenant? ==>
              var ctx := Context(if Resolve(req, old(db.tenants)).Resolved?
                                 then Some(Resolve(req, old(db.tenants)).tenant) else None, None);
              && (route.HealthCheck? ==> r == Health(ctx))
              && (route.ListResourcesRoute? ==> r == ListResources(ctx, old(db.resources)))
              && (route.GetResourceRoute? ==> r == GetResource(ctx, old(db.resources), route.id))
              && (route.ListTenantsRoute? ==> r == ListTenants(old(db.tenants)))
              && (route.TenantMeRoute? ==> r == TenantProfileOf(ctx))
              && (route.ThemeCssRoute? ==> r == CurrentCss(ctx, env))
              && (route.CreateResourceRoute? ==>
                    CreateOutcome(old(db.resources), old(db.clock), db.resources, ctx, route.body, r))
  {
    if !CorsAllows(req.origin, env) {
      return PassError;
    }
    if route.Preflight? {
      return PreflightDone;
    }
    if route.Root? {
      return Send(Json(200, ApiIndexBody));
    }
    var step := TenantContextMiddleware(req, Context(None, None), db.tenants);
    if step.Stop? {
      return step.reply;
    }
    var ctx := step.ctx;
    match route {
      case HealthCheck => r := Health(ctx);
      case ListResourcesRoute => r := ListResources(ctx, db.resources);
      case CreateResourceRoute(body) => r := CreateResource(db, ctx, body);
      case GetResourceRoute(id) => r := GetResource(ctx, db.resources, id);
      case ListTenantsRoute => r := ListTenants(db.tenants);
      case TenantMeRoute => r := TenantProfileOf(ctx);
      case ThemeCssRoute => r := CurrentCss(ctx, env);
      case Unmounted => r := NoRoute;
    }
  }
}
