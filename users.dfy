/** User management within the resolved tenant. Every route runs behind the
    identity guard; creation and deletion also behind the admin gate. Users
    are keyed by the pair (tenant, lower-cased email), but only by the
    routes' own checks: the store has no unique index. */
module UserRoutes {
  import opened Common
  import opened Text
  import opened Seqs
  import opened TenantModel
  import opened UserModel
  import opened Store
  import opened Http
  import opened AuthMiddleware
  import opened AdminMiddleware

  /** The fields a create or update request body may carry. */
  datatype UserInput = UserInput(email: Option<string>, password: Option<string>, name: Option<string>,
                                 role: Option<string>)

  /** No two users of one tenant share an email. */
  ghost predicate EmailsUnique(us: seq<User>) {
    forall i, j :: 0 <= i < j < |us| && us[i].tenantId == us[j].tenantId ==> us[i].email != us[j].email
  }

  function DocCreatedAt(d: UserDoc): int { d.createdAt }

  /** `GET /api/users`: an admin sees every user of the tenant without
      passwords, newest first; anyone else sees only themselves. */
  function ListUsers(ctx: Context, us: seq<User>): (r: Reply)
    requires ctx.user.Some?
    ensures ctx.tenant.None? ==> r == TenantRequired
    ensures ctx.tenant.Some? ==> r.Send? && r.response.status == 200
    ensures ctx.tenant.Some? && !IsAdmin(ctx.user.value.role) ==>
              r.response.body == UserViewsBody([View(ctx.user.value)])
    ensures ctx.tenant.Some? && IsAdmin(ctx.user.value.role) ==>
              && r.response.body.UserDocsBody?
              && SortedDesc(r.response.body.docs, DocCreatedAt)
              && multiset(r.response.body.docs) == multiset(Map(UsersOf(us, ctx.tenant.value.id), WithoutPassword))
              && (forall d :: d in r.response.body.docs <==>
                               exists u :: u in us && u.tenantId == ctx.tenant.value.id && d == WithoutPassword(u))
  {
    if ctx.tenant.None? then TenantRequired
    else if IsAdmin(ctx.user.value.role) then
      var mine := Map(UsersOf(us, ctx.tenant.value.id), WithoutPassword);
      var docs := SortDesc(mine, DocCreatedAt);
      SortDescMembers(mine, DocCreatedAt);
      ProjectedMembers(us, ctx.tenant.value.id);
      Send(Json(200, UserDocsBody(docs)))
    else Send(Json(200, UserViewsBody([View(ctx.user.value)])))
  }

  /** The projected users of a tenant are exactly the projections of the
      users whose tenant it is. */
  lemma ProjectedMembers(us: seq<User>, tenantId: Id)
    ensures forall d :: d in Map(UsersOf(us, tenantId), WithoutPassword) <==>
                        exists u :: u in us && u.tenantId == tenantId && d == WithoutPassword(u)
  {
    var of := UsersOf(us, tenantId);
    var mine := Map(of, WithoutPassword);
    forall d ensures d in mine <==> exists u :: u in us && u.tenantId == tenantId && d == WithoutPassword(u) {
      if d in mine {
        var k :| 0 <= k < |mine| && mine[k] == d;
        assert of[k] in of;
      }
      if exists u :: u in us && u.tenantId == tenantId && d == WithoutPassword(u) {
        var u :| u in us && u.tenantId == tenantId && d == WithoutPassword(u);
        var k :| 0 <= k < |of| && of[k] == u;
        assert mine[k] == d;
      }
    }
  }

  /** The record after an update: `name` and `email` (lower-cased) change
      only when given non-empty, `role` only when the caller is an admin and
      gives one; nothing else changes. */
  function ApplyUpdate(u: User, input: UserInput, isAdmin: bool): (v: User)
    ensures v.id == u.id && v.tenantId == u.tenantId && v.password == u.password
    ensures v.createdAt == u.createdAt && v.updatedAt == u.updatedAt
    ensures !isAdmin ==> v.role == u.role
    ensures !Truthy(input.name) && !Truthy(input.email) && !(isAdmin && Truthy(input.role)) ==> v == u
    ensures Truthy(input.email) ==> v.email == Lower(input.email.value) && IsLower(v.email)
    ensures !Truthy(input.email) ==> v.email == u.email
    ensures v.name == (if Truthy(input.name) then input.name else u.name)
    ensures v.role == (if isAdmin && Truthy(input.role) then input.role else u.role)
  {
    LowerIsLower(if Truthy(input.email) then input.email.value else "");
    u.(name := if Truthy(input.name) then input.name else u.name,
       email := if Truthy(input.email) then Lower(input.email.value) else u.email,
       role := if Truthy(input.role) && isAdmin then input.role else u.role)
  }

  /** An update by an admin can give a user the email another user of the
      same tenant already has: the update path does not repeat the
      create path's existence check. */
  lemma UpdateCanDuplicateEmail(u1: User, u2: User)
    requires u1.tenantId == u2.tenantId && u1.email != u2.email
    requires u2.email != "" && Lower(u2.email) == u2.email
    ensures EmailsUnique([u1, u2])
    ensures !EmailsUnique([ApplyUpdate(u1, UserInput(Some(u2.email), None, None, None), true), u2])
  {
    var v := ApplyUpdate(u1, UserInput(Some(u2.email), None, None, None), true);
    assert [v, u2][0] == v && [v, u2][1] == u2;
  }

  /** What a user route answers, with the user collection it leaves. */
  datatype UsersOutcome = UsersOutcome(reply: Reply, users: seq<User>)

  /** `POST /api/users` (after the admin gate), on the collection `us` with
      the store's clock and next id: all three of email, password and name
      are required; the lower-cased email must be new within the tenant; the
      role defaults to `user`. */
  function CreateUserSpec(us: seq<User>, clock: nat, nextId: nat, ctx: Context, input: UserInput): (o: UsersOutcome)
    ensures ctx.tenant.None? ==> o.reply == TenantRequired
    ensures ctx.tenant.Some? && !(Truthy(input.email) && Truthy(input.password) && Truthy(input.name)) ==>
              o.reply == Fail(400, "Email, password, and name are required")
    ensures ctx.tenant.Some? && Truthy(input.email) && Truthy(input.password) && Truthy(input.name)
            && FindUserByEmail(us, Lower(input.email.value), ctx.tenant.value.id).Some? ==>
              o.reply == Fail(400, "User already exists")
    ensures o.reply.Send? && o.reply.response.status == 201 <==>
              ctx.tenant.Some? && Truthy(input.email) && Truthy(input.password) && Truthy(input.name)
              && FindUserByEmail(us, Lower(input.email.value), ctx.tenant.value.id).None?
    ensures !(o.reply.Send? && o.reply.response.status == 201) ==> o.users == us
    ensures o.reply.Send? && o.reply.response.status == 201 ==>
              exists u :: && o.users == us + [u]
                          && u.id == nextId && u.createdAt == clock && u.updatedAt == clock
                          && u.tenantId == ctx.tenant.value.id && u.email == Lower(input.email.value)
                          && u.password == input.password.value && u.name == input.name
                          && u.role == Some(Or(input.role, "user"))
                          && o.reply == Send(Json(201, UserViewBody(View(u))))
  {
    if ctx.tenant.None? then UsersOutcome(TenantRequired, us)
    else if !Truthy(input.email) || !Truthy(input.password) || !Truthy(input.name) then
      UsersOutcome(Fail(400, "Email, password, and name are required"), us)
    else if FindUserByEmail(us, Lower(input.email.value), ctx.tenant.value.id).Some? then
      UsersOutcome(Fail(400, "User already exists"), us)
    else
      var u := User(nextId, ctx.tenant.value.id, Lower(input.email.value), input.name,
                    Some(Or(input.role, "user")), input.password.value, clock, clock);
      UsersOutcome(Send(Json(201, UserViewBody(View(u)))), us + [u])
  }

  /** Creation never gives a tenant a second user with the same email. */
  lemma CreateKeepsEmailsUnique(us: seq<User>, clock: nat, nextId: nat, ctx: Context, input: UserInput)
    requires EmailsUnique(us)
    ensures EmailsUnique(CreateUserSpec(us, clock, nextId, ctx, input).users)
  {
    var o := CreateUserSpec(us, clock, nextId, ctx, input);
    if o.users != us {
      var u := o.users[|us|];
      assert o.users == us + [u];
      AppendNewEmail(us, u);
    }
  }

  /** Appending a user whose email is new in its tenant keeps emails unique. */
  lemma AppendNewEmail(us: seq<User>, u: User)
    requires FindUserByEmail(us, u.email, u.tenantId).None?
    requires EmailsUnique(us)
    ensures EmailsUnique(us + [u])
  {
    var vs := us + [u];
    assert forall k :: 0 <= k < |us| ==> vs[k] == us[k];
    assert vs[|us|] == u;
  }

  /** `POST /api/users` on the store. */
  method CreateUser(db: Database, ctx: Context, input: UserInput) returns (r: Reply)
    requires db.Valid()
    modifies db
    ensures db.Valid()
    ensures db.tenants == old(db.tenants) && db.resources == old(db.resources)
    ensures UsersOutcome(r, db.users) == CreateUserSpec(old(db.users), old(db.clock), old(db.nextId), ctx, input)
    ensures db.users == old(db.users) ==> db.clock == old(db.clock) && db.nextId == old(db.nextId)
    ensures db.users != old(db.users) ==> db.clock == old(db.clock) + 1 && db.nextId == old(db.nextId) + 1
    ensures EmailsUnique(old(db.users)) ==> EmailsUnique(db.users)
  {
    if EmailsUnique(db.users) {
      CreateKeepsEmailsUnique(db.users, db.clock, db.nextId, ctx, input);
    }
    if ctx.tenant.None? {
      return TenantRequired;
    }
    if !Truthy(input.email) || !Truthy(input.password) || !Truthy(input.name) {
      return Fail(400, "Email, password, and name are required");
    }
    var email := Lower(input.email.value);
    var tenantId := ctx.tenant.value.id;
    if FindUserByEmail(db.users, email, tenantId).Some? {
      return Fail(400, "User already exists");
    }
    var created := db.InsertUser(tenantId, email, input.name, Some(Or(input.role, "user")), input.password.value);
    if created.Accepted? {
      r := Send(Json(201, UserViewBody(View(created.doc))));
    } else {
      // A truthy email stays non-empty when lower-cased.
      assert false;
    }
  }

  /** `PUT /api/users/:id`, on the collection `us` at time `clock`: the
      target is looked up within the tenant first; then a non-admin may
      update only themselves and never the role; the saved record is
      returned without its password. */
  function UpdateUserSpec(us: seq<User>, clock: nat, ctx: Context, targetId: Id, input: UserInput): (o: UsersOutcome)
    requires ctx.user.Some?
    ensures ctx.tenant.None? ==> o.reply == TenantRequired
    ensures ctx.tenant.Some? && FindUser(us, targetId, ctx.tenant.value.id).None? ==>
              o.reply == Fail(404, "User not found")
    ensures ctx.tenant.Some? && FindUser(us, targetId, ctx.tenant.value.id).Some?
            && !IsAdmin(ctx.user.value.role) && ctx.user.value.id != targetId ==>
              o.reply == Fail(403, "Access denied")
    ensures ctx.tenant.Some? && FindUser(us, targetId, ctx.tenant.value.id).Some?
            && !IsAdmin(ctx.user.value.role) && ctx.user.value.id == targetId && Truthy(input.role) ==>
              o.reply == Fail(403, "Only admins can change roles")
    ensures !(o.reply.Send? && o.reply.response.status == 200) ==> o.users == us
    ensures o.reply.Send? && o.reply.response.status == 200 <==>
              && ctx.tenant.Some? && FindUser(us, targetId, ctx.tenant.value.id).Some?
              && (IsAdmin(ctx.user.value.role) || (ctx.user.value.id == targetId && !Truthy(input.role)))
    ensures o.reply.Send? && o.reply.response.status == 200 ==>
              var k := UserIndex(us, targetId, ctx.tenant.value.id).value;
              var v := ApplyUpdate(us[k], input, IsAdmin(ctx.user.value.role));
              && o.users == us[k := Saved(us[k], v.email, v.name, v.role, clock)]
              && o.reply == Send(Json(200, UserViewBody(View(o.users[k]))))
  {
    if ctx.tenant.None? then UsersOutcome(TenantRequired, us)
    else match UserIndex(us, targetId, ctx.tenant.value.id)
      case None => UsersOutcome(Fail(404, "User not found"), us)
      case Some(k) =>
        var isAdmin := IsAdmin(ctx.user.value.role);
        if !isAdmin && ctx.user.value.id != targetId then UsersOutcome(Fail(403, "Access denied"), us)
        else if !isAdmin && Truthy(input.role) then UsersOutcome(Fail(403, "Only admins can change roles"), us)
        else
          var v := ApplyUpdate(us[k], input, isAdmin);
          var saved := Saved(us[k], v.email, v.name, v.role, clock);
          UsersOutcome(Send(Json(200, UserViewBody(View(saved)))), us[k := saved])
  }

  /** An accepted update that sets nothing (no name, no email, and no role
      an admin may set) writes nothing: the stored record, its `updatedAt`
      included, stays as it was. */
  lemma EmptyUpdateWritesNothing(us: seq<User>, clock: nat, ctx: Context, targetId: Id, input: UserInput)
    requires ctx.user.Some?
    requires !Truthy(input.name) && !Truthy(input.email) && !(IsAdmin(ctx.user.value.role) && Truthy(input.role))
    ensures UpdateUserSpec(us, clock, ctx, targetId, input).users == us
  {
  }

  /** An update changes at most the target record, and keeps its identity,
      tenant, password and creation time. */
  lemma UpdateTouchesOnlyTarget(us: seq<User>, clock: nat, ctx: Context, targetId: Id, input: UserInput)
    requires ctx.user.Some? && ctx.tenant.Some?
    ensures var o := UpdateUserSpec(us, clock, ctx, targetId, input);
            && |o.users| == |us|
            && forall j :: 0 <= j < |us| && o.users[j] != us[j] ==>
                 && o.users[j].id == targetId && us[j].id == targetId
                 && o.users[j].tenantId == us[j].tenantId == ctx.tenant.value.id
                 && o.users[j].password == us[j].password && o.users[j].createdAt == us[j].createdAt
  {
  }

  /** `PUT /api/users/:id` on the store: a write happens, and the clock
      advances, only when a field actually changes. */
  method UpdateUser(db: Database, ctx: Context, targetId: Id, input: UserInput) returns (r: Reply)
    requires db.Valid() && ctx.user.Some?
    modifies db
    ensures db.Valid()
    ensures db.tenants == old(db.tenants) && db.resources == old(db.resources) && db.nextId == old(db.nextId)
    ensures UsersOutcome(r, db.users) == UpdateUserSpec(old(db.users), old(db.clock), ctx, targetId, input)
    ensures db.clock == if db.users == old(db.users) then old(db.clock) else old(db.clock) + 1
  {
    if ctx.tenant.None? {
      return TenantRequired;
    }
    var k := UserIndex(db.users, targetId, ctx.tenant.value.id);
    if k.None? {
      return Fail(404, "User not found");
    }
    var isAdmin := IsAdmin(ctx.user.value.role);
    var isSelf := ctx.user.value.id == targetId;
    if !isAdmin && !isSelf {
      return Fail(403, "Access denied");
    }
    if !isAdmin && Truthy(input.role) {
      return Fail(403, "Only admins can change roles");
    }
    var v := ApplyUpdate(db.users[k.value], input, isAdmin);
    db.SaveUser(k.value, v.email, v.name, v.role);
    r := Send(Json(200, UserViewBody(View(db.users[k.value]))));
  }

  /** `DELETE /api/users/:id` (after the admin gate), on the collection
      `us`: deleting oneself is refused before any lookup; otherwise the
      tenant's user with that id is removed. */
  function RemoveUserSpec(us: seq<User>, ctx: Context, targetId: Id): (o: UsersOutcome)
    requires ctx.user.Some?
    ensures ctx.tenant.None? ==> o.reply == TenantRequired
    ensures ctx.tenant.Some? && ctx.user.value.id == targetId ==> o.reply == Fail(400, "Cannot delete your own account")
    ensures (ctx.tenant.Some? && ctx.user.value.id != targetId
             && FindUser(us, targetId, ctx.tenant.value.id).None?) ==> o.reply == Fail(404, "User not found")
    ensures o.reply == Send(Json(200, MessageBody("User deleted successfully"))) <==>
              && ctx.tenant.Some? && ctx.user.value.id != targetId
              && FindUser(us, targetId, ctx.tenant.value.id).Some?
    ensures o.reply.Send? && o.reply.response.status == 200 ==>
              var k := UserIndex(us, targetId, ctx.tenant.value.id).value;
              o.users == us[..k] + us[k + 1..]
    ensures !(o.reply.Send? && o.reply.response.status == 200) ==> o.users == us
  {
    if ctx.tenant.None? then UsersOutcome(TenantRequired, us)
    else if ctx.user.value.id == targetId then UsersOutcome(Fail(400, "Cannot delete your own account"), us)
    else match UserIndex(us, targetId, ctx.tenant.value.id)
      case None => UsersOutcome(Fail(404, "User not found"), us)
      case Some(k) => UsersOutcome(Send(Json(200, MessageBody("User deleted successfully"))), us[..k] + us[k + 1..])
  }

  /** Deleting a user leaves every other tenant's users exactly as they
      were, in the same order. */
  lemma {:induction false} RemoveSparesOtherTenants(us: seq<User>, ctx: Context, targetId: Id, other: Id)
    requires ctx.user.Some? && ctx.tenant.Some? && other != ctx.tenant.value.id
    ensures UsersOf(RemoveUserSpec(us, ctx, targetId).users, other) == UsersOf(us, other)
  {
    var o := RemoveUserSpec(us, ctx, targetId);
    if o.users != us {
      var k := UserIndex(us, targetId, ctx.tenant.value.id).value;
      UsersOfRemove(us, k, other);
    }
  }

  /** Dropping a record of another tenant does not change a tenant's users. */
  lemma UsersOfRemove(us: seq<User>, k: nat, other: Id)
    requires k < |us| && us[k].tenantId != other
    ensures UsersOf(us[..k] + us[k + 1..], other) == UsersOf(us, other)
  {
    var front, back := us[..k], us[k + 1..];
    var rest := [us[k]] + back;
    assert us == front + rest;
    assert UsersOf(rest, other) == UsersOf(back, other) by {
      UsersOfSingle(us[k], other);
      UsersOfAppend([us[k]], back, other);
    }
    UsersOfAppend(front, rest, other);
    UsersOfAppend(front, back, other);
  }

  /** `DELETE /api/users/:id` on the store. */
  method RemoveUser(db: Database, ctx: Context, targetId: Id) returns (r: Reply)
    requires db.Valid() && ctx.user.Some?
    modifies db
    ensures db.Valid()
    ensures db.tenants == old(db.tenants) && db.resources == old(db.resources)
    ensures db.clock == old(db.clock) && db.nextId == old(db.nextId)
    ensures UsersOutcome(r, db.users) == RemoveUserSpec(old(db.users), ctx, targetId)
  {
    if ctx.tenant.None? {
      return TenantRequired;
    }
    if ctx.user.value.id == targetId {
      return Fail(400, "Cannot delete your own account");
    }
    var deleted := db.DeleteUser(targetId, ctx.tenant.value.id);
    if deleted.None? {
      return Fail(404, "User not found");
    }
    r := Send(Json(200, MessageBody("User deleted successfully")));
  }

  /** `GET /api/users` behind the identity guard. */
  function ListUsersRoute(req: Request, ctx: Context, us: seq<User>, ts: seq<Tenant>,
                          verify: string -> Verified): (r: Reply)
    ensures Authenticate(req, ctx, us, ts, verify).Stop? ==> r == Authenticate(req, ctx, us, ts, verify).reply
    ensures Authenticate(req, ctx, us, ts, verify).Next? ==>
              r == ListUsers(ctx.(user := TokenUser(req, us, verify)), us)
    ensures r.Send? && r.response.status == 200 ==> TokenUser(req, us, verify).Some? && ctx.tenant.Some?
  {
    match Authenticate(req, ctx, us, ts, verify)
    case Stop(reply) => reply
    case Next(c) => ListUsers(c, us)
  }

  /** The guard runs before the route's own tenant check: without a token
      the answer is 401 even when no tenant is resolved. */
  lemma GuardBeforeTenantCheck(req: Request, ctx: Context, us: seq<User>, ts: seq<Tenant>,
                               verify: string -> Verified)
    requires !Truthy(TokenFrom(req))
    ensures ListUsersRoute(req, ctx, us, ts, verify) == Fail(401, "Authentication required")
  {
  }

  /** A non-admin caller listing users sees exactly one entry, themselves,
      whatever else the tenant holds. */
  lemma MemberSeesOnlySelf(req: Request, ctx: Context, us: seq<User>, ts: seq<Tenant>,
                           verify: string -> Verified, u: User)
    requires ctx.tenant.Some?
    requires Authenticate(req, ctx, us, ts, verify) == Next(ctx.(user := Some(u)))
    requires !IsAdmin(u.role)
    ensures ListUsersRoute(req, ctx, us, ts, verify) == Send(Json(200, UserViewsBody([View(u)])))
  {
  }

  /** The identity guard then the admin gate, as mounted before the create
      and delete routes; `Next` carries the context the route runs with. */
  function AdminGuards(req: Request, ctx: Context, us: seq<User>, ts: seq<Tenant>,
                       verify: string -> Verified): (r: Step)
    ensures r.Next? ==> r.ctx.user.Some? && IsAdmin(r.ctx.user.value.role) && r.ctx.tenant == ctx.tenant
    ensures Authenticate(req, ctx, us, ts, verify).Stop? ==> r == Authenticate(req, ctx, us, ts, verify)
  {
    match Authenticate(req, ctx, us, ts, verify)
    case Stop(reply) => Stop(reply)
    case Next(c) => RequireAdmin(c)
  }

  /** A member may not create or delete users, even in their own tenant. */
  lemma MemberStoppedByAdminGate(req: Request, ctx: Context, us: seq<User>, ts: seq<Tenant>,
                                 verify: string -> Verified, u: User)
    requires Authenticate(req, ctx, us, ts, verify) == Next(ctx.(user := Some(u)))
    requires !IsAdmin(u.role)
    ensures AdminGuards(req, ctx, us, ts, verify) == Stop(Fail(403, "Admin access required"))
  {
  }

  /** `POST /api/users` with its guards: a refused request leaves the store
      unchanged; an admitted one is `CreateUserSpec` under the guards'
      context. */
  method CreateUserRoute(db: Database, req: Request, ctx: Context, input: UserInput, verify: string -> Verified)
    returns (r: Reply)
    requires db.Valid()
    modifies db
    ensures db.Valid()
    ensures db.tenants == old(db.tenants) && db.resources == old(db.resources)
    ensures db.users == old(db.users) ==> db.clock == old(db.clock) && db.nextId == old(db.nextId)
    ensures AdminGuards(req, ctx, old(db.users), old(db.tenants), verify).Stop? ==>
              r == AdminGuards(req, ctx, old(db.users), old(db.tenants), verify).reply && db.users == old(db.users)
    ensures AdminGuards(req, ctx, old(db.users), old(db.tenants), verify).Next? ==>
              UsersOutcome(r, db.users)
              == CreateUserSpec(old(db.users), old(db.clock), old(db.nextId),
                                AdminGuards(req, ctx, old(db.users), old(db.tenants), verify).ctx, input)
  {
    var step := AdminGuards(req, ctx, db.users, db.tenants, verify);
    if step.Stop? {
      return step.reply;
    }
    r := CreateUser(db, step.ctx, input);
  }

  /** `PUT /api/users/:id` with the identity guard: an admitted request is
      `UpdateUserSpec` under the context carrying the caller. */
  method UpdateUserRoute(db: Database, req: Request, ctx: Context, targetId: Id, input: UserInput,
                         verify: string -> Verified) returns (r: Reply)
    requires db.Valid()
    modifies db
    ensures db.Valid()
    ensures db.tenants == old(db.tenants) && db.resources == old(db.resources) && db.nextId == old(db.nextId)
    ensures db.users == old(db.users) ==> db.clock == old(db.clock)
    ensures Authenticate(req, ctx, old(db.users), old(db.tenants), verify).Stop? ==>
              r == Authenticate(req, ctx, old(db.users), old(db.tenants), verify).reply && db.users == old(db.users)
    ensures Authenticate(req, ctx, old(db.users), old(db.tenants), verify).Next? ==>
              && Authenticate(req, ctx, old(db.users), old(db.tenants), verify).ctx.user.Some?
              && UsersOutcome(r, db.users)
                 == UpdateUserSpec(old(db.users), old(db.clock),
                                   Authenticate(req, ctx, old(db.users), old(db.tenants), verify).ctx, targetId, input)
  {
    var step := Authenticate(req, ctx, db.users, db.tenants, verify);
    if step.Stop? {
      return step.reply;
    }
    r := UpdateUser(db, step.ctx, targetId, input);
  }

  /** `DELETE /api/users/:id` with its guards: an admitted request is
      `RemoveUserSpec` under the guards' context. */
  method RemoveUserRoute(db: Database, req: Request, ctx: Context, targetId: Id, verify: string -> Verified)
    returns (r: Reply)
    requires db.Valid()
    modifies db
    ensures db.Valid()
    ensures db.tenants == old(db.tenants) && db.resources == old(db.resources)
    ensures db.clock == old(db.clock) && db.nextId == old(db.nextId)
    ensures AdminGuards(req, ctx, old(db.users), old(db.tenants), verify).Stop? ==>
              r == AdminGuards(req, ctx, old(db.users), old(db.tenants), verify).reply && db.users == old(db.users)
    ensures AdminGuards(req, ctx, old(db.users), old(db.tenants), verify).Next? ==>
              UsersOutcome(r, db.users)
              == RemoveUserSpec(old(db.users), AdminGuards(req, ctx, old(db.users), old(db.tenants), verify).ctx, targetId)
  {
    var step := AdminGuards(req, ctx, db.users, db.tenants, verify);
    if step.Stop? {
      return step.reply;
    }
    r := RemoveUser(db, step.ctx, targetId);
  }
}
