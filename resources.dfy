/** The tenant-scoped resource routes: every query is keyed by the resolved
    tenant, so one tenant never sees or fetches another's records. */
module ResourceRoutes {
  import opened Common
  import opened Seqs
  import opened TenantModel
  import opened ResourceModel
  import opened Store
  import opened Http

  /** The JSON body of a create request. A `tenantId` the client sends is
      carried here only to show that it is ignored. */
  datatype NewResourceBody = NewResourceBody(title: Option<string>, content: Option<string>, tenantId: Option<Id>)

  /** `GET /api/resources`: the tenant's records, newest first. */
  function ListResources(ctx: Context, rs: seq<Resource>): (r: Reply)
    ensures ctx.tenant.None? ==> r == TenantRequired
    ensures ctx.tenant.Some? ==> r.Send? && r.response.status == 200 && r.response.body.ResourcesBody?
    ensures ctx.tenant.Some? ==>
              var listed := r.response.body.resources;
              && (forall x :: x in listed <==> x in rs && x.tenantId == ctx.tenant.value.id)
              && SortedDesc(listed, ResourceModel.CreatedAt)
              && multiset(listed) == multiset(ResourcesOf(rs, ctx.tenant.value.id))
  {
    if ctx.tenant.None? then TenantRequired
    else
      var mine := ResourcesOf(rs, ctx.tenant.value.id);
      var listed := NewestResourcesFirst(mine);
      assert forall x :: x in listed <==> x in mine by {
        forall x ensures x in listed <==> x in mine {
          assert x in listed <==> x in multiset(listed);
          assert x in mine <==> x in multiset(mine);
        }
      }
      Send(Json(200, ResourcesBody(listed)))
  }

  /** `GET /api/resources/:id`: found only when the id belongs to the
      resolved tenant. */
  function GetResource(ctx: Context, rs: seq<Resource>, id: Id): (r: Reply)
    ensures ctx.tenant.None? ==> r == TenantRequired
    ensures ctx.tenant.Some? ==>
              ((exists x :: x in rs && x.id == id && x.tenantId == ctx.tenant.value.id)
               <==> r.Send? && r.response.status == 200)
    ensures ctx.tenant.Some? && r.Send? && r.response.status == 200 ==>
              r.response.body.ResourceBody? && r.response.body.resource in rs
              && r.response.body.resource.id == id
              && r.response.body.resource.tenantId == ctx.tenant.value.id
    ensures ctx.tenant.Some? && !(r.Send? && r.response.status == 200) ==> r == Fail(404, "Not found")
  {
    if ctx.tenant.None? then TenantRequired
    else match FindResource(rs, id, ctx.tenant.value.id)
      case None => Fail(404, "Not found")
      case Some(x) => Send(Json(200, ResourceBody(x)))
  }

  /** What `POST /api/resources` answers with `r`, taking the collection
      from `before` to `after` at time `clock`: without a tenant, 400 and
      no write; with one, 201 exactly when the body has a title, the new
      record (the tenant's, with the body's title and content, stamped
      `clock`) appended; otherwise the validation error is passed on and
      nothing is written. */
  ghost predicate CreateOutcome(before: seq<Resource>, clock: nat, after: seq<Resource>, ctx: Context,
                                body: Option<NewResourceBody>, r: Reply) {
    && (ctx.tenant.None? ==> r == TenantRequired && after == before)
    && (ctx.tenant.Some? ==> (r.Send? <==> body.Some? && Present(body.value.title)))
    && (ctx.tenant.Some? && r.Send? ==>
          && r.response.status == 201 && r.response.body.ResourceBody?
          && var doc := r.response.body.resource;
          && doc.tenantId == ctx.tenant.value.id
          && body.Some? && body.value.title == Some(doc.title) && doc.content == body.value.content
          && after == before + [doc]
          && doc.createdAt == clock)
    && (ctx.tenant.Some? && !r.Send? ==> r == PassError && after == before)
  }

  /** `POST /api/resources`: a missing body reads as `{}`; the record is
      stamped with the resolved tenant, whatever the body says; a failed
      validation is passed on as an error. */
  method CreateResource(db: Database, ctx: Context, body: Option<NewResourceBody>) returns (r: Reply)
    requires db.Valid()
    modifies db
    ensures db.Valid()
    ensures db.tenants == old(db.tenants) && db.users == old(db.users)
    ensures CreateOutcome(old(db.resources), old(db.clock), db.resources, ctx, body, r)
  {
    if ctx.tenant.None? {
      return TenantRequired;
    }
    var input := if body.Some? then body.value else NewResourceBody(None, None, None);
    var created := db.InsertResource(ctx.tenant.value.id, input.title, input.content);
    if created.Accepted? {
      r := Send(Json(201, ResourceBody(created.doc)));
    } else {
      r := PassError;
    }
  }

  /** Adding a record for one tenant changes neither another tenant's list
      nor what that tenant can fetch by id. */
  lemma CreateIsolation(rs: seq<Resource>, x: Resource, ctx: Context, id: Id)
    requires ctx.tenant.Some? && x.tenantId != ctx.tenant.value.id
    ensures ListResources(ctx, rs + [x]) == ListResources(ctx, rs)
    ensures GetResource(ctx, rs + [x], id) == GetResource(ctx, rs, id)
  {
    var t := ctx.tenant.value.id;
    FilterAppend(rs, [x], (y: Resource) => y.tenantId == t);
    assert Filter([x], (y: Resource) => y.tenantId == t) == [];
    assert ResourcesOf(rs + [x], t) == ResourcesOf(rs, t);
    FindAppendMiss(rs, x, (y: Resource) => y.id == id && y.tenantId == t);
  }

  /** Records are stored in creation order, so the newest-first list is the
      tenant's records in reverse order of creation. */
  lemma ListIsReverseCreation(ctx: Context, rs: seq<Resource>, clock: nat, nextId: nat)
    requires ResourcesWellFormed(rs, clock, nextId) && ctx.tenant.Some?
    ensures ListResources(ctx, rs).response.body.resources == Reverse(ResourcesOf(rs, ctx.tenant.value.id))
  {
    NewestFirstIsReverse(rs, clock, nextId, ctx.tenant.value.id);
  }

  /** A record of another tenant, fetched by its own id, gets the same 404 as
      an id that does not exist: the route does not reveal it. */
  lemma ForeignIdLooksMissing(ctx: Context, rs: seq<Resource>, x: Resource)
    requires ctx.tenant.Some? && x in rs && x.tenantId != ctx.tenant.value.id
    requires Ascending(rs, ResourceModel.IdOf)
    ensures GetResource(ctx, rs, x.id) == Fail(404, "Not found")
  {
    forall y | y in rs && y.id == x.id ensures y == x {
      var i :| 0 <= i < |rs| && rs[i] == x;
      var j :| 0 <= j < |rs| && rs[j] == y;
      assert ResourceModel.IdOf(rs[i]) == ResourceModel.IdOf(rs[j]);
    }
  }

  function Titles(rs: seq<Resource>): seq<string> {
    Map(rs, (x: Resource) => x.title)
  }

  /** In the isolation scenario, one tenant holds a document and then a plan,
      and the other tenant one record created after them. */
  function Scenario(acme: Id, globex: Id, doc: string, plan: string, other: string): seq<Resource> {
    [Resource(0, acme, doc, None, 0, 0), Resource(1, acme, plan, None, 1, 1),
     Resource(2, globex, other, None, 2, 2)]
  }

  lemma ScenarioRecords(acme: Id, globex: Id, doc: string, plan: string, other: string)
    requires acme != globex
    ensures var rs := Scenario(acme, globex, doc, plan, other);
            && ResourcesOf(rs, acme) == [rs[0], rs[1]]
            && ResourcesOf(rs, globex) == [rs[2]]
  {
    var rs := Scenario(acme, globex, doc, plan, other);
    assert rs == [rs[0]] + [rs[1]] + [rs[2]];
    forall t ensures ResourcesOf(rs, t) == ResourcesOf([rs[0]], t) + ResourcesOf([rs[1]], t) + ResourcesOf([rs[2]], t) {
      ResourcesOfAppend([rs[0]] + [rs[1]], [rs[2]], t);
      ResourcesOfAppend([rs[0]], [rs[1]], t);
    }
    ResourcesOfSingle(rs[0], acme);
    ResourcesOfSingle(rs[1], acme);
    ResourcesOfSingle(rs[2], acme);
    ResourcesOfSingle(rs[0], globex);
    ResourcesOfSingle(rs[1], globex);
    ResourcesOfSingle(rs[2], globex);
  }

  lemma ScenarioWellFormed(acme: Id, globex: Id, doc: string, plan: string, other: string)
    ensures ResourcesWellFormed(Scenario(acme, globex, doc, plan, other), 3, 3)
  {
  }

  /** Each tenant lists only its own titles, the plan before the document;
      without a tenant the list is refused. */
  lemma TwoTenantScenario(acme: Tenant, globex: Tenant, u: Option<UserModel.User>,
                          doc: string, plan: string, other: string)
    requires acme.id != globex.id
    ensures var rs := Scenario(acme.id, globex.id, doc, plan, other);
            && Titles(ListResources(Context(Some(acme), u), rs).response.body.resources) == [plan, doc]
            && Titles(ListResources(Context(Some(globex), u), rs).response.body.resources) == [other]
            && ListResources(Context(None, u), rs) == TenantRequired
  {
    ScenarioFirstTenant(acme, globex, u, doc, plan, other);
    ScenarioSecondTenant(acme, globex, u, doc, plan, other);
  }

  lemma ScenarioFirstTenant(acme: Tenant, globex: Tenant, u: Option<UserModel.User>,
                            doc: string, plan: string, other: string)
    requires acme.id != globex.id
    ensures var rs := Scenario(acme.id, globex.id, doc, plan, other);
            Titles(ListResources(Context(Some(acme), u), rs).response.body.resources) == [plan, doc]
  {
    var rs := Scenario(acme.id, globex.id, doc, plan, other);
    ScenarioWellFormed(acme.id, globex.id, doc, plan, other);
    ScenarioRecords(acme.id, globex.id, doc, plan, other);
    ListIsReverseCreation(Context(Some(acme), u), rs, 3, 3);
    var a := [rs[0], rs[1]];
    assert Reverse(a) == [rs[1], rs[0]] by {
      assert a[1..] == [rs[1]];
    }
    assert Titles([rs[1], rs[0]]) == [plan, doc];
  }

  lemma ScenarioSecondTenant(acme: Tenant, globex: Tenant, u: Option<UserModel.User>,
                             doc: string, plan: string, other: string)
    requires acme.id != globex.id
    ensures var rs := Scenario(acme.id, globex.id, doc, plan, other);
            Titles(ListResources(Context(Some(globex), u), rs).response.body.resources) == [other]
  {
    var rs := Scenario(acme.id, globex.id, doc, plan, other);
    ScenarioWellFormed(acme.id, globex.id, doc, plan, other);
    ScenarioRecords(acme.id, globex.id, doc, plan, other);
    ListIsReverseCreation(Context(Some(globex), u), rs, 3, 3);
    assert Reverse([rs[2]]) == [rs[2]];
    assert Titles([rs[2]]) == [other];
  }
}
