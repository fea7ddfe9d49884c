# Multi-tenant SaaS dashboard — a verified model

The system is a multi-tenant SaaS backend with a browser dashboard. Every API request is first resolved to a tenant, using these sources in order:

- the `X-Tenant-ID` header;
- a `/t/<slug>` or `/tenant/<slug>` path prefix;
- the first label of the host name.

A token guard and an admin gate protect the user routes. Resources, users and sessions are always read and written under the resolved tenant, and each tenant gets its own theme stylesheet. The browser side works out the tenant from the address and sends it as a header. It keeps the resource list, the user list and the tenant picker in step with the API's answers.

The model has one Dafny module per source file, plus shared helpers:

- `Text`: the JavaScript string methods the code calls.
- `Seqs`: filtering, sorting newest first, and reversal.
- `Http`: requests, contexts and responses.
- `Store`: the document store. A `Database` class has `tenants`, `resources` and `users` collections, a timestamp counter standing in for the clock, and an id counter.

Route handlers are module-level: those that only read the store are functions, and those that write take the `Database` as a parameter and are methods. The store operations themselves (`InsertTenant`, `InsertResource`, `InsertUser`, `SaveUser`, `DeleteUser`) are the `Database` class's methods. They state the new collections in full and keep the store's invariant `Valid()`, which requires:

- ids and creation times strictly ascending;
- tenant slugs unique.

The browser's state, which the source keeps in React state, is modelled as two classes:

- `App.Shell`: the tenant, the resource list and the create form.
- `UserManagement.UserManager`: the user list, the add form, the open dialog and menu, and the error.

The signature library, the password comparison, the network and the user's input are parameters:

- token verification is a function from the token to the decoded payload or the error thrown;
- token issue is a function from the user id to a token;
- password comparison is a predicate;
- API answers are `Option`/`Answer` values.

## Model

| member | source | states |
|---|---|---|
| Text.TrimSlice | backend/src/middleware/tenantContext.js:29-31 | `trim` removes exactly the white space at both ends: the result is a slice with all-space margins that neither starts nor ends with white space |
| Text.TrimEmptyIff | backend/src/middleware/tenantContext.js:29-36 | a string trims to empty exactly when it is all white space |
| Text.TrimLowerCommute | frontend/src/App.jsx:192 | trimming and lower-casing commute |
| Text.LowerIsLower | backend/src/middleware/tenantContext.js:30 | `toLowerCase` yields a lower-case string and is the identity on one |
| Text.Includes | frontend/src/components/UserManagement.jsx:129 | `includes` by scanning is true exactly when the needle occurs at some position |
| Text.IncludesEmpty | frontend/src/components/UserManagement.jsx:125-130 | the empty query occurs in every string |
| Text.Split | frontend/src/components/UserManagement.jsx:109 | `split` yields at least one piece and no piece contains the separator |
| Text.JoinSplit | frontend/src/components/UserManagement.jsx:109 | joining the pieces of a split restores the string |
| Text.SplitJoin | backend/src/server.js:21 | splitting a join of separator-free pieces restores the pieces |
| Seqs.Filter | backend/src/routes/resources.js:9 | `find` keeps exactly the matching records, in store order |
| Seqs.FilterAscending | backend/src/routes/resources.js:9 | a query's filter keeps the store's creation order |
| Seqs.SortDesc | backend/src/routes/resources.js:9 | `.sort({ createdAt: -1 })` is ordered newest first and is a permutation of its input |
| Seqs.SortAscendingIsReverse | backend/src/routes/resources.js:9 | sorting a strictly ascending sequence newest first reverses it |
| TenantModel.DefaultTheme | backend/src/models/Tenant.js:3-7 | each default colour is the configured value when set and non-empty, otherwise `#2d6cdf`, `#ffffff`, `#111111` |
| TenantModel.ThemeWithDefaults | backend/src/models/Tenant.js:3-7 | a supplied colour is kept; each missing colour, or a missing theme, takes the default |
| TenantModel.NewTenant | backend/src/models/Tenant.js:9-17 | accepted exactly when name and slug are present; name is checked first; the slug is stored as given |
| ResourceModel.NewResource | backend/src/models/Resource.js:3-8 | accepted exactly when the title is present; content optional; both timestamps are the current time |
| UserModel.NewUser | backend/src/models/User.js:3-8 | accepted exactly when the email is non-empty; both timestamps are the current time |
| Store.UserIndex | backend/src/routes/users.js:95 | the first position of a user with this id in this tenant, agreeing with `findOne({ _id, tenantId })` |
| Store.FindTenantBySlugUnique | backend/src/models/Tenant.js:11 | with unique slugs, looking up a tenant's slug finds that tenant |
| Store.NewestFirstIsReverse | backend/src/routes/resources.js:9 | a tenant's records newest first are its records in reverse creation order |
| Store.RemoveAscending | backend/src/routes/users.js:146-153 | deleting one record keeps creation order |
| Store.Database.InsertTenant | backend/src/models/Tenant.js:9-17 | validation, then the unique slug index; only an accepted tenant is added, with a fresh id |
| Store.Database.InsertResource | backend/src/routes/resources.js:18 | `Resource.create` appends the validated record with a fresh id and the current time, else changes nothing |
| Store.Database.InsertUser | backend/src/routes/users.js:63-69 | `User.create` appends the validated record with a fresh id and the current time, else changes nothing |
| Store.Saved | backend/src/routes/users.js:113-117 | a saved record carries the assigned profile fields and keeps id, tenant, password and `createdAt`; it equals the stored record exactly when no field differs, and otherwise has `updatedAt` set to the save time |
| Store.Database.SaveUser | backend/src/routes/users.js:113-117 | `save()` turns the record into its `Saved` form and changes nothing else; the clock advances only when something was written |
| Store.Database.DeleteUser | backend/src/routes/users.js:146-149 | `findOneAndDelete` removes and returns the first record with that id in that tenant, or changes nothing |
| TenantContext.SlugRun | backend/src/middleware/tenantContext.js:21 | the maximal run of `[a-z0-9-]` (any case) at the start |
| TenantContext.PathSlug | backend/src/middleware/tenantContext.js:20-23 | a path slug is non-empty and made of slug characters |
| TenantContext.PathSlugComplete | backend/src/middleware/tenantContext.js:21-22 | `/t/<slug>` or `/tenant/<slug>` (prefix in any case) followed by nothing or `/…` yields exactly that slug |
| TenantContext.PathSlugSound | backend/src/middleware/tenantContext.js:21-22 | every path slug comes from such a path |
| TenantContext.IsDottedQuad | backend/src/middleware/tenantContext.js:8 | a string the IP test accepts is made of digits and dots only |
| TenantContext.DottedQuadIff | backend/src/middleware/tenantContext.js:8 | four digit runs joined by dots are an IP host |
| TenantContext.DottedQuadShape | backend/src/middleware/tenantContext.js:8 | an IP host is four digit runs joined by dots |
| TenantContext.HostSlug | backend/src/middleware/tenantContext.js:3-13 | a host slug is a non-empty lower-case prefix of the lower-cased host without `.` or `:` |
| TenantContext.HostSlugIsFirstLabel | backend/src/middleware/tenantContext.js:6-12 | a host slug is the whole first label of the lower-cased host: `.`, `:` or the end follows it |
| TenantContext.HostSlugOfSubdomain | backend/src/middleware/tenantContext.js:3-13 | a subdomain host in any letter case, with or without a port, yields its first label lower-cased |
| TenantContext.IpHostYieldsNothing | backend/src/middleware/tenantContext.js:6-9 | a dotted-quad address, with or without a port, yields no slug |
| TenantContext.LoopbackYieldsNothing | backend/src/middleware/tenantContext.js:6-9 | `127.0.0.1:4000` yields no slug |
| TenantContext.LocalhostYieldsNothing | backend/src/middleware/tenantContext.js:6-8 | `localhost` with any port or case yields no slug |
| TenantContext.SlugCandidate | backend/src/middleware/tenantContext.js:17-26 | the truthy header when present; otherwise the path slug when the path has one; otherwise the host's slug |
| TenantContext.Normalise | backend/src/middleware/tenantContext.js:28-31 | a normalised slug is non-empty, lower-case and trimmed |
| TenantContext.Resolve | backend/src/middleware/tenantContext.js:17-46 | no slug means no tenant; an unknown slug is absent from the directory; a resolved tenant is a directory record with that slug |
| TenantContext.TenantContextMiddleware | backend/src/middleware/tenantContext.js:15-51 | continues with no tenant, stops with 404 `Tenant not found: "<slug>"`, or continues with the resolved tenant |
| TenantContext.HeaderWins | backend/src/middleware/tenantContext.js:19 | a truthy header decides alone: path and host are not consulted |
| TenantContext.PathBeforeHost | backend/src/middleware/tenantContext.js:20-23 | without a header, a path slug decides and the host is not consulted |
| TenantContext.HostLast | backend/src/middleware/tenantContext.js:24-26 | only without header and path slug is the host used |
| TenantContext.BlankHeaderMeansNoTenant | backend/src/middleware/tenantContext.js:19-36 | a whitespace-only header suppresses the other sources and yields no tenant |
| TenantContext.NoSignalNoTenant | backend/src/middleware/tenantContext.js:33-36 | no signal from any source yields no tenant and no error |
| TenantContext.NormalisedHeadersAgree | backend/src/middleware/tenantContext.js:29-31 | headers equal after trim and lower-case resolve alike |
| TenantContext.AcmeNormalises | backend/src/middleware/tenantContext.js:29-31 | `"  ACME "` and `"acme"` normalise to `acme` |
| TenantContext.ResolvedIsDirectoryRecord | backend/src/middleware/tenantContext.js:38 | with unique slugs, the resolved tenant is exactly the record whose slug is the normalised slug (both directions) |
| TenantContext.OnlyLowerCaseSlugsReachable | backend/src/models/Tenant.js:11 | a resolved tenant's stored slug is lower-case and trimmed, so other stored slugs are unreachable |
| TenantContext.SameTenantFromEverySource | backend/src/middleware/tenantContext.js:17-38 | a lower-case slug resolves alike from header, path and host |
| TenantContext.PathAgreesWithHeader | backend/src/middleware/tenantContext.js:19-23 | `/t/<slug>` or `/tenant/<slug>` resolves as the header `<slug>` would |
| TenantContext.HostAgreesWithHeader | backend/src/middleware/tenantContext.js:19-26 | `<slug>.<domain>` with or without a port, not an IP address, resolves as the header `<slug>` would |
| AuthMiddleware.TokenFrom | backend/src/middleware/auth.js:9-12 | with a `Bearer ` header, the token is the header's remainder after that prefix; otherwise it is the cookie |
| AuthMiddleware.Authenticate | backend/src/middleware/auth.js:6-41 | 401 without a token; 401 for a bad or expired token; any other verification error is passed on; a verified token whose user exists (and, under a resolved tenant, belongs to it and has its tenant record) is accepted with exactly that user added to the context; on any acceptance the context gains only the loaded user, who belongs to the resolved tenant if any |
| AuthMiddleware.BearerIgnoresCookie | backend/src/middleware/auth.js:9-12 | a `Bearer ` header gives the text after 7 characters and the cookie is ignored |
| AuthMiddleware.BareBearerIsMissingToken | backend/src/middleware/auth.js:14-16 | a bare `Bearer ` header is 401 "Authentication required" |
| AuthMiddleware.UnknownUserRefused | backend/src/middleware/auth.js:22-25 | a verified token of no user is 401 "User not found" |
| AuthMiddleware.TenantMismatchRefused | backend/src/middleware/auth.js:27-30 | a valid token of another tenant's user is 403 "Access denied: tenant mismatch" |
| AuthMiddleware.NoTenantAcceptsAnyUser | backend/src/middleware/auth.js:28 | with no resolved tenant, any existing user's valid token is accepted |
| AdminMiddleware.RequireAdmin | backend/src/middleware/admin.js:3-8 | proceeds, with the context unchanged, exactly when a user with role `admin` is present; otherwise 403 "Admin access required" |
| ResourceRoutes.ListResources | backend/src/routes/resources.js:6-12 | 400 without a tenant; otherwise exactly the tenant's records, newest first, as a permutation |
| ResourceRoutes.GetResource | backend/src/routes/resources.js:23-30 | 200 exactly when a record has that id and tenant; otherwise 404 "Not found" |
| ResourceRoutes.CreateResource | backend/src/routes/resources.js:14-21 | 201 exactly when a title is present; the record carries the context tenant, ignoring any body `tenantId`, and is appended; otherwise the store is unchanged |
| ResourceRoutes.CreateIsolation | backend/src/routes/resources.js:6-30 | another tenant's new record changes neither the list nor any fetch |
| ResourceRoutes.ListIsReverseCreation | backend/src/routes/resources.js:9 | the list is the tenant's records in reverse creation order |
| ResourceRoutes.ForeignIdLooksMissing | backend/src/routes/resources.js:26-27 | another tenant's id gets the same 404 as a missing id |
| ResourceRoutes.TwoTenantScenario | backend/__tests__/isolation.test.js:21-53 | acme lists `[plan, doc]`, globex only its own record, no tenant gives 400 |
| UserRoutes.ListUsersRoute | backend/src/routes/users.js:9-38 | the token guard runs first and its refusal is the answer; an admitted request is `ListUsers` with the context carrying the token's user; a 200 implies both a token user and a tenant |
| UserRoutes.ListUsers | backend/src/routes/users.js:12-38 | an admin gets the tenant's users without passwords, newest first, as a permutation (same multiset) of the tenant's projected users; anyone else only themselves |
| UserRoutes.ApplyUpdate | backend/src/routes/users.js:113-115 | name is the given one when truthy, else kept; email is the given one lower-cased when truthy, else kept; role is the given one when truthy and the caller is an admin, else kept; id, tenant, password and timestamps are kept |
| UserRoutes.UpdateCanDuplicateEmail | backend/src/routes/users.js:113-117 | an admin update can give a user another user's email in the same tenant |
| UserRoutes.CreateUserSpec | backend/src/routes/users.js:43-78 | 400 without a tenant; 400 for a missing field or an existing (tenant, lower-cased email); 201 exactly otherwise, appending one user with a fresh id, the current time, the tenant, the lower-cased email and the role given or `user`; otherwise no change |
| UserRoutes.CreateKeepsEmailsUnique | backend/src/routes/users.js:54-69 | creation never gives a tenant two users with one email |
| UserRoutes.CreateUser | backend/src/routes/users.js:41-82 | reply and users are `CreateUserSpec` of the old users, clock and next id; the clock and id counter advance exactly when a user was added; keeps emails unique |
| UserRoutes.AppendNewEmail | backend/src/routes/users.js:54-60 | appending a user whose email is new in its tenant keeps emails unique |
| UserRoutes.UpdateUserSpec | backend/src/routes/users.js:87-126 | 404 before any role check; 403 for a member on another user or supplying a role; 200 exactly otherwise, the target becoming the `Saved` form of its `ApplyUpdate` and the reply showing it; otherwise no change |
| UserRoutes.EmptyUpdateWritesNothing | backend/src/routes/users.js:113-117 | an update that sets no field leaves the users, `updatedAt` included, unchanged |
| UserRoutes.UpdateTouchesOnlyTarget | backend/src/routes/users.js:95-117 | an update changes at most the target record, keeping its id, tenant, password and creation time |
| UserRoutes.UpdateUser | backend/src/routes/users.js:85-130 | reply and users are `UpdateUserSpec` of the old users and clock; the clock advances exactly when a record changed |
| UserRoutes.RemoveUserSpec | backend/src/routes/users.js:135-155 | self-delete is 400 before lookup; 404 if not in the tenant; otherwise exactly that user is removed; otherwise no change |
| UserRoutes.RemoveSparesOtherTenants | backend/src/routes/users.js:146-149 | a deletion leaves every other tenant's users exactly as they were |
| UserRoutes.RemoveUser | backend/src/routes/users.js:133-159 | reply and users are `RemoveUserSpec` of the old users; clock, ids, tenants and resources are unchanged |
| UserRoutes.GuardBeforeTenantCheck | backend/src/routes/users.js:9 | without a token the answer is 401 even with no tenant |
| UserRoutes.MemberSeesOnlySelf | backend/src/routes/users.js:26-33 | a member's listing is exactly themselves |
| UserRoutes.AdminGuards | backend/src/routes/users.js:41 | passing the guards means an admin of the same tenant context |
| UserRoutes.MemberStoppedByAdminGate | backend/src/routes/users.js:41-45 | a member may not create or delete users |
| UserRoutes.CreateUserRoute | backend/src/routes/users.js:41-82 | a refused guard answers its reply and leaves the users unchanged; an admitted request answers and stores `CreateUserSpec` under the guards' context; tenants and resources never change |
| UserRoutes.UpdateUserRoute | backend/src/routes/users.js:85-130 | a refused guard answers its reply and leaves the users unchanged; an admitted request answers and stores `UpdateUserSpec` under the context carrying the caller; tenants, resources and ids never change |
| UserRoutes.RemoveUserRoute | backend/src/routes/users.js:133-159 | a refused guard answers its reply and leaves the users unchanged; an admitted request answers and stores `RemoveUserSpec` under the guards' context; nothing else changes |
| AuthRoutes.Register | backend/src/routes/auth.js:8-57 | 400s for a missing field or an existing (tenant, lower-cased email); 201 exactly otherwise, appending the user with the lower-cased untrimmed email and issuing a session |
| AuthRoutes.Login | backend/src/routes/auth.js:60-114 | 200 exactly when the trimmed, lower-cased email finds a tenant user whose password matches, with the session of that same (first-found) user; every other complete request is 401 "Invalid credentials" |
| AuthRoutes.LoginKey | backend/src/routes/auth.js:73 | the lookup key is lower-case and trimmed, and an email already in that form is its own key |
| AuthRoutes.LoginFailuresAlike | backend/src/routes/auth.js:78-88 | an unknown email and a wrong password get identical answers |
| AuthRoutes.LoginScopedToTenant | backend/src/routes/auth.js:73-76 | no user of another tenant can log in |
| AuthRoutes.RegisterThenLogin | backend/src/routes/auth.js:27-88 | a registered user with an unpadded email can log in with the same credentials |
| AuthRoutes.PaddedEmailCannotLogIn | backend/src/routes/auth.js:27-76 | an email registered with leading white space can never log in |
| AuthRoutes.Me | backend/src/routes/auth.js:117-126 | exactly id, email, name and role of the authenticated user |
| AuthRoutes.MeRoute | backend/src/routes/auth.js:117-126 | a refusal by the token guard is the answer; a 200 shows the public fields of the token's user |
| AuthRoutes.MeShowsTenantUser | backend/src/routes/auth.js:117-126 | with a resolved tenant, `/me` only shows a user of that tenant |
| AuthRoutes.Logout | backend/src/routes/auth.js:129-132 | always 200 and clears the token cookie |
| ThemeRoutes.CurrentTheme | backend/src/routes/themes.js:6-10 | the tenant's theme, or the defaults exactly when no tenant |
| ThemeRoutes.Css | backend/src/routes/themes.js:11 | the stylesheet is 50 characters of template plus the three colours, opening with `:root{--color-primary:` and the primary colour and closing with the text colour and `;}` |
| ThemeRoutes.CurrentCss | backend/src/routes/themes.js:5-15 | always 200, `text/css`, uncached, the template over the current theme |
| ThemeRoutes.CssDeclaresPrimary | backend/src/routes/themes.js:11 | the stylesheet opens `:root` and declares the primary colour |
| ThemeRoutes.RedPrimaryTenant | backend/__tests__/theming.test.js:28-29 | a `#ff0000` tenant's stylesheet contains `:root` and `--color-primary:#ff0000` |
| ThemeRoutes.CssInjective | backend/src/routes/themes.js:11 | colours without `;` can be read back: different themes give different stylesheets |
| TenantRoutes.ListTenants | backend/src/routes/tenants.js:7-12 | every tenant in order, projected to id, name, slug and brand |
| TenantRoutes.TenantProfileOf | backend/src/routes/tenants.js:14-22 | 404 "Tenant not resolved", or exactly name, slug, brand and theme |
| TenantRoutes.ListingShowsEverySlug | backend/src/routes/tenants.js:9 | every directory slug appears in the listing |
| Server.AllowedOrigins | backend/src/server.js:21 | exactly the non-empty comma-separated entries |
| Server.ConfiguredOriginsRoundTrip | backend/src/server.js:21 | a list written as the setting reads back unchanged |
| Server.CorsAllows | backend/src/server.js:22-23 | an origin is admitted exactly when it is missing or empty, when the setting has no non-empty entry, or when it is one of the entries |
| Server.OnlyListedOrigins | backend/src/server.js:22-23 | with a configured list, an origin is admitted exactly when listed |
| Server.OnlyCommasAdmitAll | backend/src/server.js:22 | an empty list admits every origin |
| Server.Health | backend/src/server.js:45-47 | status ok and the tenant slug exactly when a tenant with a non-empty slug is resolved |
| Server.HealthReportsResolvedSlug | backend/src/server.js:43-47 | the reported slug is the normalised slug of the request |
| Server.Handle | backend/src/server.js:19-51 | CORS first, which ends an admitted preflight with 204; the root route before tenant resolution; an unknown tenant is 404 for every later route; each mounted route, resource creation included, answers as that route does under the resolved tenant |
| App.ExtractSlug | frontend/src/App.jsx:8-14 | a path slug wins, lower-cased; else the non-empty `tenant` parameter, lower-cased; else none |
| App.PathBeforeQuery | frontend/src/App.jsx:10-11 | with a path slug the query parameter is irrelevant |
| App.TenantHeader | frontend/src/App.jsx:36 | the header is sent exactly when the tenant is truthy, and carries it |
| App.HeaderAgreesWithPath | frontend/src/App.jsx:34-40 | the header sent for an address's tenant resolves on the server as the address itself |
| App.ApplyTenantInput | frontend/src/App.jsx:191-200 | clears exactly for white-space input; otherwise selects the trimmed, lower-cased value |
| App.ApplyThenExtract | frontend/src/App.jsx:196 | a selected slug of slug characters is read back from `/t/<slug>/` |
| App.ApplyNonSlugLost | frontend/src/App.jsx:196 | a selected value with a non-slug character is not what the address reads back |
| App.Shell.constructor | frontend/src/App.jsx:16 | the first render reads the tenant from the address |
| App.Shell.SyncWithAddress | frontend/src/App.jsx:19-29 | after every tenant change the tenant equals the address's slug |
| App.Shell.Apply | frontend/src/App.jsx:191-200 | a selection navigates to `/t/<slug>/`, a blank does not navigate; in both cases the `[slug]` effect then makes the tenant the slug of the address still shown |
| App.BlankApplyKeepsAddressTenant | frontend/src/App.jsx:10-27 | a blank box on `/t/acme/` is a clear, but the address still names `acme`, which the effect restores |
| App.Shell.ResourcesLoaded | frontend/src/App.jsx:91-95 | the fetched list, or empty on failure |
| App.Shell.CreateResource | frontend/src/App.jsx:97-113 | no tenant: alert, nothing changes; failure: alert; success: prepend and reset the form |
| App.PrependKeepsNewestFirst | frontend/src/App.jsx:108 | prepending the newest record keeps the list newest first |
| App.PrependMatchesReload | frontend/src/App.jsx:108 | the prepended list is what a reload from the server would show |
| UserManagement.FirstChars | frontend/src/components/UserManagement.jsx:110-111 | at most one character per word |
| UserManagement.FirstCharsFromWords | frontend/src/components/UserManagement.jsx:110-111 | every collected character starts a word |
| UserManagement.TakeTwo | frontend/src/components/UserManagement.jsx:113 | a prefix of length `min(2, n)`: the whole string when shorter than two |
| UserManagement.Initials | frontend/src/components/UserManagement.jsx:107-114 | at most two characters |
| UserManagement.InitialsComeFromWords | frontend/src/components/UserManagement.jsx:107-114 | each initial is the upper-cased first character of a word of the name |
| UserManagement.InitialsOfWords | frontend/src/components/UserManagement.jsx:107-114 | single-spaced words give the upper-cased first letters of the first two |
| UserManagement.FirstCodeUnit | frontend/src/components/UserManagement.jsx:121 | `charCodeAt(0)`: the code point itself inside the Basic Multilingual Plane; beyond it, the high surrogate, which is `0xD800` plus the top ten bits of the offset from `0x10000` |
| UserManagement.AvatarColor | frontend/src/components/UserManagement.jsx:116-123 | a colour exactly for a non-empty name, always a palette entry |
| UserManagement.ColourOfFirstChar | frontend/src/components/UserManagement.jsx:121 | the palette entry at the first code modulo 8 |
| UserManagement.SurrogateColour | frontend/src/components/UserManagement.jsx:121 | beyond the Basic Multilingual Plane only the high surrogate decides |
| UserManagement.FilterUsers | frontend/src/components/UserManagement.jsx:125-130 | a row stays exactly when the lower-cased query occurs in its lower-cased name or email |
| UserManagement.EmptySearchListsAll | frontend/src/components/UserManagement.jsx:125-130 | an empty query lists everyone in order |
| UserManagement.Key | frontend/src/components/UserManagement.jsx:133 | a row's key is its truthy `id`, otherwise its `_id` |
| UserManagement.CallerKey | frontend/src/components/UserManagement.jsx:134 | no caller has no key; otherwise the caller's truthy `id`, else its `_id` |
| UserManagement.IsCurrentUser | frontend/src/components/UserManagement.jsx:132-136 | compares `id || _id` of row and caller, including a row keyed by `_id` against a caller keyed by `id` and the reverse; two missing keys compare equal |
| UserManagement.KeptAsWritten | frontend/src/components/UserManagement.jsx:100 | when a key was deleted, a row missing `id` or `_id` is kept |
| UserManagement.RemoveAsWritten | frontend/src/components/UserManagement.jsx:100 | a row stays exactly when it is not the case that both its `id` and its `_id` equal the deleted key |
| UserManagement.RemoveAsWrittenKeepsAll | frontend/src/components/UserManagement.jsx:100 | the filter as written keeps every row that carries only one id |
| UserManagement.DeletedRowStillListed | frontend/src/components/UserManagement.jsx:100 | a row `{_id: "42"}` deleted by "42" is still listed |
| UserManagement.RemoveByKey | frontend/src/components/UserManagement.jsx:100 | a row stays exactly when its key differs from the deleted key |
| UserManagement.RemoveByKeyAppendRow | frontend/src/components/UserManagement.jsx:100 | deleting a row's key removes that row and keeps the others in place |
| UserManagement.UserManager.AddUser | frontend/src/components/UserManagement.jsx:47-79 | success appends, closes the dialog and resets the form to role `user`; failure keeps all and shows the error |
| UserManagement.UserManager.DeleteUser | frontend/src/components/UserManagement.jsx:81-105 | declined: nothing; success: the rows keyed by the deleted key go (the intended filter, `RemoveByKey`) and the menu closes; failure: the error is shown |
| TenantSelection.FilterTenants | frontend/src/components/TenantSelection.jsx:29-36 | a tenant stays exactly when the lower-cased untrimmed query occurs in its name, slug or truthy tagline |
| TenantSelection.EmptySearchListsAll | frontend/src/components/TenantSelection.jsx:29-36 | an empty query lists every tenant in order |
| TenantSelection.SpacedQueryFindsNothing | frontend/src/components/TenantSelection.jsx:30 | the query is not trimmed: one with a space finds no space-free tenant |
| TenantSelection.OnEnter | frontend/src/components/TenantSelection.jsx:74-86 | blank selects nothing; the first tenant in the list whose lower-cased slug equals the query is selected; otherwise the single filtered tenant, exactly when there is one |
| TenantSelection.PaddingIgnoredForExactSlug | frontend/src/components/TenantSelection.jsx:77-79 | padding does not change an exact-slug choice |
| TenantSelection.SpacedQueryNoFallback | frontend/src/components/TenantSelection.jsx:75-84 | a spaced query without an exact slug selects nothing |

## Left out

- Token signing and verification and the password hash comparison are parameters: a verification result per token, an issue function per user id, a comparison predicate. Token expiry is one of the verification results.
- `comparePassword` is called by login but is not defined on the User schema in `backend/src/models/User.js`. The model treats it as the comparison parameter, as if defined.
- The User schema declares neither `role` nor `password`, so strict mode would drop them. The model stores both as the routes write them.
- The `auth` and `users` routers are not mounted in `backend/src/server.js:49-51`. They are modelled as route logic, and `Server.Handle` treats their paths as unmounted (404).
- Express route selection from method and path is an input (`Server.Route`).
- ObjectId casting: ids are numbers on the server and strings in the browser, so a malformed id and its `CastError` do not arise.
- Any other thrown database error, and the framework's error handler, are one opaque `PassError` outcome. This also covers the CORS rejection.
- Tenant lookup populates the user's tenant. A user whose tenant record is missing, under a resolved tenant, throws and is a `PassError`.
- The wall clock is a counter. Records created in one `insertMany` with equal timestamps do not arise.
- Text.Lower, Text.Upper: only ASCII letters change case. Non-ASCII case mapping (`toUpperCase` of `ß`, Turkish dotted i) is not modelled.
- UserManagement.Initials: a word starting with a character beyond the Basic Multilingual Plane contributes the whole character, not its lone high surrogate.
- Cookie attributes (httpOnly, sameSite, maxAge) are dropped; only setting and clearing the token cookie is modelled.
- UserManagement.UserManager.DeleteUser: drops rows with the intended filter `RemoveByKey`, not the filter as written at `frontend/src/components/UserManagement.jsx:100`, which keeps a row whose `_id` is the key but which has no `id`. `UserManagement.RemoveAsWritten` models that filter (see Findings).
- ThemeRoutes.CurrentCss: the content type is stated as `text/css`, without the charset parameter the framework appends.
- Logging (console, morgan), the no-op find hook on resources, `mongoose.connect` and `app.listen` have no effect on the modelled outcomes.
- Browser parts that are not modelled:
  - React rendering and style injection;
  - `localStorage` and `window`;
  - the `popstate` listener;
  - the loading, creating and submitting flags;
  - the user and tenant list fetches.

  A network failure is the `Unreachable` answer.
- The duplicate entry point `backend/server.js`, the seed script, the Vite configuration, and the Dashboard and Login screens are not part of this model.

Behaviour of the code a reader might not expect:

- Registration sets no role.
- Deleting oneself is refused with 400.
- The tenant listing keeps each tenant's id.
- Registration stores the email lower-cased but untrimmed, while login trims it.
- The Enter key's exact match lower-cases both the slug and the query.
- Applying a blank tenant box does not clear a tenant the address names: the `[slug]` effect re-reads the address and restores it.
- A CORS preflight (`OPTIONS`) is answered 204 by the CORS middleware before tenant resolution, so an unknown `X-Tenant-ID` does not make it 404.

## Findings

| source | as written | input that shows it | evidently intended | confidence | as-written member | corrected member |
|---|---|---|---|---|---|---|
| frontend/src/components/UserManagement.jsx:100 | after a delete the list keeps rows with `u.id !== userId \|\| u._id !== userId`, which drops a row only when both ids equal the deleted key | the admin listing's row `{_id: "42"}` (no `id`), deleted by its key "42": `undefined !== "42"` keeps it | drop the rows whose key `id \|\| _id` equals the deleted key | not executed | UserManagement.DeletedRowStillListed | UserManagement.RemoveByKeyAppendRow |
