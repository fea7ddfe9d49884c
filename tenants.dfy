/** The tenant directory listing and the resolved tenant's profile. Neither
    route needs an identity; the listing ignores the resolved tenant. */
module TenantRoutes {
  import opened Common
  import opened Seqs
  import opened TenantModel
  import opened Http

  /** A directory entry as the listing projects it: the document id is kept
      alongside the selected name, slug and brand. */
  function Summary(t: Tenant): TenantSummary {
    TenantSummary(t.id, t.name, t.slug, t.brand)
  }

  /** `GET /api/tenants`: every tenant, in directory order, projected. */
  function ListTenants(directory: seq<Tenant>): (r: Reply)
    ensures r.Send? && r.response.status == 200 && r.response.body.TenantsBody?
    ensures var listed := r.response.body.tenants;
            && |listed| == |directory|
            && forall k :: 0 <= k < |directory| ==>
                 && listed[k].id == directory[k].id && listed[k].name == directory[k].name
                 && listed[k].slug == directory[k].slug && listed[k].brand == directory[k].brand
  {
    Send(Json(200, TenantsBody(Map(directory, Summary))))
  }

  /** `GET /api/tenants/me`: the resolved tenant's name, slug, brand and
      theme, or 404 when no tenant is resolved. */
  function TenantProfileOf(ctx: Context): (r: Reply)
    ensures ctx.tenant.None? ==> r == Fail(404, "Tenant not resolved")
    ensures ctx.tenant.Some? ==> r.Send? && r.response.status == 200 && r.response.body.ProfileBody?
    ensures ctx.tenant.Some? ==>
              var p := r.response.body.profile; var t := ctx.tenant.value;
              p.name == t.name && p.slug == t.slug && p.brand == t.brand && p.theme == t.theme
  {
    if ctx.tenant.None? then Fail(404, "Tenant not resolved")
    else
      var t := ctx.tenant.value;
      Send(Json(200, ProfileBody(TenantProfile(t.name, t.slug, t.brand, t.theme))))
  }

  /** Every slug in the directory can be found in the listing. */
  lemma ListingShowsEverySlug(directory: seq<Tenant>, t: Tenant)
    requires t in directory
    ensures exists s :: s in ListTenants(directory).response.body.tenants && s.slug == t.slug && s.id == t.id
  {
    var k :| 0 <= k < |directory| && directory[k] == t;
    assert ListTenants(directory).response.body.tenants[k].slug == t.slug;
  }
}
