/** The dashboard shell in the browser: the tenant slug read from the address,
    the tenant box that switches tenants, the tenant header attached to API
    calls, and the resource list the shell keeps after loading and creating
    resources. The address, the API's answers and the user's input are
    parameters. */
module App {
  import opened Common
  import opened Text
  import opened Seqs
  import opened ResourceModel
  import opened Store
  import opened Http
  import opened TenantContext
  import opened ResourceRoutes

  /** The tenant the address names: a `/t/<slug>` or `/tenant/<slug>` path
      wins, lower-cased; otherwise the `tenant` query parameter, lower-cased,
      where an empty value means none. */
  function ExtractSlug(path: string, tenantParam: Option<string>): (r: Option<string>)
    ensures r.Some? ==> r.value != "" && IsLower(r.value)
    ensures PathSlug(path).Some? ==> r == Some(Lower(PathSlug(path).value))
    ensures PathSlug(path).None? ==> (r.Some? <==> tenantParam.Some? && tenantParam.value != "")
    ensures PathSlug(path).None? && r.Some? ==> r == Some(Lower(tenantParam.value))
  {
    LowerIsLower(if PathSlug(path).Some? then PathSlug(path).value else Or(tenantParam, ""));
    match PathSlug(path)
    case Some(s) => Some(Lower(s))
    case None =>
      if tenantParam.Some? && Lower(tenantParam.value) != "" then Some(Lower(tenantParam.value)) else None
  }

  /** A tenant in the path makes the query parameter irrelevant. */
  lemma PathBeforeQuery(path: string, q1: Option<string>, q2: Option<string>)
    requires PathSlug(path).Some?
    ensures ExtractSlug(path, q1) == ExtractSlug(path, q2)
  {
  }

  /** Lower-casing keeps slug characters slug characters. */
  lemma LowerSlug(s: string)
    requires IsSlug(s)
    ensures IsSlug(Lower(s))
    ensures Trim(Lower(s)) == Lower(s)
  {
    TrimNoop(Lower(s));
  }

  /** `X-Tenant-ID` goes with a call only when the tenant is truthy. */
  function TenantHeader(tenant: Option<string>): (h: Option<string>)
    ensures h.Some? <==> tenant.Some? && tenant.value != ""
    ensures h.Some? ==> h == tenant
  {
    if Truthy(tenant) then tenant else None
  }

  /** The shell's tenant, sent as the header, makes the server resolve the
      same tenant it would resolve from the path itself. */
  lemma HeaderAgreesWithPath(req: Request, q: Option<string>, directory: seq<TenantModel.Tenant>)
    requires !Truthy(req.tenantHeader) && PathSlug(req.path).Some?
    ensures TenantHeader(ExtractSlug(req.path, q)).Some?
    ensures Resolve(req.(tenantHeader := TenantHeader(ExtractSlug(req.path, q))), directory)
            == Resolve(req, directory)
  {
    var s := PathSlug(req.path).value;
    var sent := req.(tenantHeader := TenantHeader(ExtractSlug(req.path, q)));
    assert Normalise(SlugCandidate(req)) == Some(Lower(s)) by {
      assert SlugCandidate(req) == Some(s);
      SlugIsTrimmed(s);
    }
    assert Normalise(SlugCandidate(sent)) == Some(Lower(s)) by {
      assert SlugCandidate(sent) == Some(Lower(s));
      LowerSlug(s);
      LowerIsLower(Lower(s));
    }
    ResolveByNormalised(sent, req, directory);
  }

  /** What applying the tenant box does: select a slug, or clear the tenant. */
  datatype Applied = Select(slug: string) | Clear

  /** The tenant box: trimmed and lower-cased; white space alone clears. */
  function ApplyTenantInput(value: string): (r: Applied)
    ensures r.Clear? <==> AllSpace(value)
    ensures r.Select? ==> r.slug == Lower(Trim(value))
    ensures r.Select? ==> IsLower(r.slug) && Trim(r.slug) == r.slug
  {
    var slug := Lower(Trim(value));
    TrimEmptyIff(value);
    if slug != "" then
      TrimLowerCommute(value);
      TrimSlice(value);
      LowerIsLower(Trim(value));
      TrimNoop(slug);
      Select(slug)
    else Clear
  }

  /** The address the shell moves to after selecting `slug`. */
  function NavigationTarget(slug: string): string {
    "/t/" + slug + "/"
  }

  /** A selected slug made of slug characters is read back from the address
      the shell moves to, whatever the query says. */
  lemma ApplyThenExtract(value: string, q: Option<string>)
    requires ApplyTenantInput(value).Select? && IsSlug(ApplyTenantInput(value).slug)
    ensures ExtractSlug(NavigationTarget(ApplyTenantInput(value).slug), q) == Some(ApplyTenantInput(value).slug)
  {
    NavigationReadBack(ApplyTenantInput(value).slug, q);
  }

  lemma NavigationReadBack(slug: string, q: Option<string>)
    requires IsSlug(slug) && IsLower(slug)
    ensures ExtractSlug(NavigationTarget(slug), q) == Some(slug)
  {
    assert Lower("t") == "t";
    assert NavigationTarget(slug) == "/" + "t" + "/" + slug + "/";
    PathSlugComplete("t", slug, "/");
    LowerIsLower(slug);
  }

  /** A selected slug with a character the path pattern does not accept (an
      inner space, a dot) is not what the new address reads back. */
  lemma ApplyNonSlugLost(value: string, k: nat)
    requires ApplyTenantInput(value).Select?
    requires k < |ApplyTenantInput(value).slug| && !IsSlugChar(ApplyTenantInput(value).slug[k])
    ensures ExtractSlug(NavigationTarget(ApplyTenantInput(value).slug), None) != Some(ApplyTenantInput(value).slug)
  {
    NonSlugNotReadBack(ApplyTenantInput(value).slug, k);
  }

  lemma NonSlugNotReadBack(slug: string, k: nat)
    requires k < |slug| && !IsSlugChar(slug[k])
    ensures ExtractSlug(NavigationTarget(slug), None) != Some(slug)
  {
    var p := PathSlug(NavigationTarget(slug));
    if p.Some? {
      LowerSlug(p.value);
      assert !IsSlug(slug);
    }
  }

  /** A blank box on a tenant's address: applying it clears nothing, since
      the address still names the tenant the `[slug]` effect restores. */
  lemma BlankApplyKeepsAddressTenant()
    ensures ApplyTenantInput("   ").Clear?
    ensures ExtractSlug("/t/acme/", None) == Some("acme")
  {
    BlankIsClear();
    AcmeAddress();
  }

  lemma BlankIsClear()
    ensures ApplyTenantInput("   ").Clear?
  {
    assert AllSpace("   ") by { assert IsSpace(' '); }
  }

  lemma AcmeAddress()
    ensures ExtractSlug("/t/acme/", None) == Some("acme")
  {
    assert IsSlug("acme") && IsLower("acme");
    assert NavigationTarget("acme") == "/t/acme/";
    NavigationReadBack("acme", None);
  }

  /** The title and content fields of the create form. */
  datatype ResourceForm = ResourceForm(title: string, content: string)

  const EmptyForm := ResourceForm("", "")
  const NoTenantAlert := "Set a tenant first (e.g. acme)"
  const CreateFailedAlert := "Failed to create resource"

  /** The shell's state: the tenant slug, the listed resources and the
      create form. */
  class Shell {
    var tenant: Option<string>
    var resources: seq<Resource>
    var form: ResourceForm

    /** The first render reads the tenant from the address. */
    constructor (path: string, tenantParam: Option<string>)
      ensures tenant == ExtractSlug(path, tenantParam)
      ensures resources == [] && form == EmptyForm
    {
      tenant := ExtractSlug(path, tenantParam);
      resources := [];
      form := EmptyForm;
    }

    /** The `[slug]` effect, which runs after every change of the tenant
        and on `popstate`: the tenant is re-read from the address and set
        only when it differs. */
    method SyncWithAddress(path: string, tenantParam: Option<string>)
      modifies this
      ensures tenant == ExtractSlug(path, tenantParam)
      ensures resources == old(resources) && form == old(form)
    {
      var current := ExtractSlug(path, tenantParam);
      if current != tenant {
        tenant := current;
      }
    }

    /** Applying the tenant box at the address `path`/`tenantParam`: a
        selected slug becomes the tenant and the shell is sent to its path; a
        blank box sets no tenant. The change re-runs the `[slug]` effect,
        which reads the address the page still shows, so until the new page
        loads the tenant is the address's slug: a blank box on `/t/acme/`
        leaves the tenant `acme`. */
    method Apply(value: string, path: string, tenantParam: Option<string>) returns (navigate: Option<string>)
      modifies this
      ensures ApplyTenantInput(value).Select? ==> navigate == Some(NavigationTarget(ApplyTenantInput(value).slug))
      ensures ApplyTenantInput(value).Clear? ==> navigate == None
      ensures tenant == ExtractSlug(path, tenantParam)
      ensures resources == old(resources) && form == old(form)
    {
      match ApplyTenantInput(value) {
        case Select(slug) =>
          tenant := Some(slug);
          navigate := Some(NavigationTarget(slug));
        case Clear =>
          tenant := None;
          navigate := None;
      }
      SyncWithAddress(path, tenantParam);
    }

    /** The list fetched for the tenant, or the empty list when the fetch
        fails. */
    method ResourcesLoaded(answer: Option<seq<Resource>>)
      modifies this
      ensures resources == (if answer.Some? then answer.value else [])
      ensures tenant == old(tenant) && form == old(form)
    {
      if answer.Some? {
        resources := answer.value;
      } else {
        resources := [];
      }
    }

    /** Submitting the create form. Without a tenant nothing is sent and the
        user is alerted; `created` is the API's answer, None for a failure. */
    method CreateResource(created: Option<Resource>) returns (alert: Option<string>)
      modifies this
      ensures !Truthy(old(tenant)) ==> alert == Some(NoTenantAlert)
      ensures Truthy(old(tenant)) && created.None? ==> alert == Some(CreateFailedAlert)
      ensures !Truthy(old(tenant)) || created.None? ==>
                resources == old(resources) && form == old(form)
      ensures Truthy(old(tenant)) && created.Some? ==>
                alert == None && resources == [created.value] + old(resources) && form == EmptyForm
      ensures tenant == old(tenant)
    {
      if !Truthy(tenant) {
        return Some(NoTenantAlert);
      }
      if created.None? {
        return Some(CreateFailedAlert);
      }
      resources := [created.value] + resources;
      form := EmptyForm;
      alert := None;
    }
  }

  /** Putting a record at least as new as every listed one in front keeps
      the list newest-first. */
  lemma PrependKeepsNewestFirst(xs: seq<Resource>, x: Resource)
    requires SortedDesc(xs, ResourceModel.CreatedAt)
    requires forall y :: y in xs ==> y.createdAt <= x.createdAt
    ensures SortedDesc([x] + xs, ResourceModel.CreatedAt)
  {
    var r := [x] + xs;
    forall i, j | 0 <= i < j < |r| ensures CreatedAt(r[i]) >= CreatedAt(r[j]) {
      assert r[j] == xs[j - 1];
      if i > 0 { assert r[i] == xs[i - 1]; }
    }
  }

  /** The shell's list after a create is what a reload would show: the new
      record in front of the tenant's list as it was. */
  lemma PrependMatchesReload(ctx: Context, rs: seq<Resource>, doc: Resource, clock: nat, nextId: nat)
    requires ctx.tenant.Some? && doc.tenantId == ctx.tenant.value.id
    requires ResourcesWellFormed(rs + [doc], clock, nextId)
    ensures ListResources(ctx, rs + [doc]).response.body.resources
            == [doc] + ListResources(ctx, rs).response.body.resources
  {
    var t := ctx.tenant.value.id;
    assert rs == (rs + [doc])[..|rs|];
    assert ResourcesWellFormed(rs, clock, nextId);
    ListIsReverseCreation(ctx, rs + [doc], clock, nextId);
    ListIsReverseCreation(ctx, rs, clock, nextId);
    ResourcesOfAppend(rs, [doc], t);
    ResourcesOfSingle(doc, t);
    ReverseSnoc(ResourcesOf(rs, t), doc);
  }
}
