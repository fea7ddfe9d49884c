/** The tenant schema: a required name, a required unique slug, an optional
    brand and a theme whose three colours fall back to configured defaults. */
module TenantModel {
  import opened Common

  datatype Theme = Theme(primary: string, background: string, text: string)
  datatype Brand = Brand(logoUrl: Option<string>, tagline: Option<string>)
  datatype Tenant = Tenant(id: Id, name: string, slug: string, brand: Brand, theme: Theme)

  /** A theme as supplied at creation: each colour may be left out. */
  datatype ThemeInput = ThemeInput(primary: Option<string>, background: Option<string>, text: Option<string>)
  datatype TenantInput = TenantInput(name: Option<string>, slug: Option<string>, brand: Brand, theme: Option<ThemeInput>)

  /** An insertion outcome: the document, the first path failing validation,
      or the path of a unique index the document would violate. */
  datatype Checked<T> = Accepted(doc: T) | Rejected(path: string) | Duplicate(path: string)

  const BuiltinPrimary := "#2d6cdf"
  const BuiltinBackground := "#ffffff"
  const BuiltinText := "#111111"

  /** The default colours: an environment value when set and non-empty,
      otherwise the built-in one. */
  function DefaultTheme(env: Env): (t: Theme)
    ensures t.primary == (if Truthy(env.defaultThemePrimary) then env.defaultThemePrimary.value else BuiltinPrimary)
    ensures t.background == (if Truthy(env.defaultThemeBackground) then env.defaultThemeBackground.value else BuiltinBackground)
    ensures t.text == (if Truthy(env.defaultThemeText) then env.defaultThemeText.value else BuiltinText)
  {
    Theme(Or(env.defaultThemePrimary, BuiltinPrimary),
          Or(env.defaultThemeBackground, BuiltinBackground),
          Or(env.defaultThemeText, BuiltinText))
  }

  /** A schema default applies only where the value is left out; a supplied
      value, even the empty string, is kept. */
  function WithDefault(v: Option<string>, d: string): string {
    if v.Some? then v.value else d
  }

  /** Fills the missing colours of a theme; an omitted theme is all defaults. */
  function ThemeWithDefaults(t: Option<ThemeInput>, env: Env): (r: Theme)
    ensures t.None? ==> r == DefaultTheme(env)
    ensures t.Some? && t.value.primary.Some? ==> r.primary == t.value.primary.value
    ensures t.Some? && t.value.primary.None? ==> r.primary == DefaultTheme(env).primary
    ensures t.Some? && t.value.background.Some? ==> r.background == t.value.background.value
    ensures t.Some? && t.value.background.None? ==> r.background == DefaultTheme(env).background
    ensures t.Some? && t.value.text.Some? ==> r.text == t.value.text.value
    ensures t.Some? && t.value.text.None? ==> r.text == DefaultTheme(env).text
  {
    var d := DefaultTheme(env);
    var given := if t.Some? then t.value else ThemeInput(None, None, None);
    Theme(WithDefault(given.primary, d.primary),
          WithDefault(given.background, d.background),
          WithDefault(given.text, d.text))
  }

  /** Mongoose's `required` on a string rejects a missing or empty value. */
  predicate Present(v: Option<string>) {
    v.Some? && v.value != ""
  }

  /** Builds a tenant document: name first, then slug, must be present. The
      slug is stored as given, without lower-casing. */
  function NewTenant(id: Id, input: TenantInput, env: Env): (r: Checked<Tenant>)
    ensures r.Accepted? <==> Present(input.name) && Present(input.slug)
    ensures r.Accepted? ==> r.doc.id == id && r.doc.name == input.name.value
                            && r.doc.slug == input.slug.value && r.doc.brand == input.brand
                            && r.doc.theme == ThemeWithDefaults(input.theme, env)
    ensures !Present(input.name) ==> r == Rejected("name")
    ensures Present(input.name) && !Present(input.slug) ==> r == Rejected("slug")
  {
    if !Present(input.name) then Rejected("name")
    else if !Present(input.slug) then Rejected("slug")
    else Accepted(Tenant(id, input.name.value, input.slug.value, input.brand, ThemeWithDefaults(input.theme, env)))
  }

  /** No two tenants share a slug (the unique index on `slug`). */
  ghost predicate UniqueSlugs(ts: seq<Tenant>) {
    forall i, j :: 0 <= i < j < |ts| ==> ts[i].slug != ts[j].slug
  }
}

/** The resource schema: required owner tenant and title, optional content,
    and the timestamps the store maintains. */
module ResourceModel {
  import opened Common
  import opened TenantModel

  datatype Resource = Resource(id: Id, tenantId: Id, title: string, content: Option<string>,
                               createdAt: nat, updatedAt: nat)

  function CreatedAt(r: Resource): int { r.createdAt }
  function IdOf(r: Resource): int { r.id }

  /** Builds a resource document stamped at time `now`; a missing or empty
      title fails validation. */
  function NewResource(id: Id, tenantId: Id, title: Option<string>, content: Option<string>, now: nat)
    : (r: Checked<Resource>)
    ensures r.Accepted? <==> Present(title)
    ensures r.Rejected? ==> r.path == "title"
    ensures r.Accepted? ==> r.doc == Resource(id, tenantId, title.value, content, now, now)
  {
    if !Present(title) then Rejected("title")
    else Accepted(Resource(id, tenantId, title.value, content, now, now))
  }
}

/** The user record. The schema declares tenant, email and name; the routes
    also store a password and a role, which this record carries. */
module UserModel {
  import opened Common
  import opened TenantModel

  datatype User = User(id: Id, tenantId: Id, email: string, name: Option<string>, role: Option<string>,
                       password: string, createdAt: nat, updatedAt: nat)

  function CreatedAt(u: User): int { u.createdAt }
  function IdOf(u: User): int { u.id }

  /** Builds a user document stamped at time `now`; a missing or empty email
      fails validation. */
  function NewUser(id: Id, tenantId: Id, email: string, name: Option<string>, role: Option<string>,
                   password: string, now: nat): (r: Checked<User>)
    ensures r.Accepted? <==> email != ""
    ensures r.Rejected? ==> r.path == "email"
    ensures r.Accepted? ==> r.doc == User(id, tenantId, email, name, role, password, now, now)
  {
    if email == "" then Rejected("email")
    else Accepted(User(id, tenantId, email, name, role, password, now, now))
  }

  /** Whether a role is the administrator role. */
  predicate IsAdmin(role: Option<string>) {
    role == Some("admin")
  }
}
