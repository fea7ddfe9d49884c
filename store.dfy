/** The document store the handlers use: the tenant directory and the
    resource and user collections, with a timestamp counter standing in for
    the clock and a counter for fresh ObjectIds. Queries are functions over
    the collections; insertions, updates and deletions are methods. */
module Store {
  import opened Common
  import opened Seqs
  import opened TenantModel
  import opened ResourceModel
  import opened UserModel

  /** Tenant ids are fresh and distinct, and slugs are unique. */
  ghost predicate TenantsWellFormed(ts: seq<Tenant>, nextId: nat) {
    && UniqueSlugs(ts)
    && (forall i, j :: 0 <= i < j < |ts| ==> ts[i].id != ts[j].id)
    && (forall i :: 0 <= i < |ts| ==> ts[i].id < nextId)
  }

  /** Resources are kept in creation order: ids and creation times strictly
      ascend, and all of them were issued before the current counters. */
  ghost predicate ResourcesWellFormed(rs: seq<Resource>, clock: nat, nextId: nat) {
    && Ascending(rs, ResourceModel.CreatedAt)
    && Ascending(rs, ResourceModel.IdOf)
    && (forall i :: 0 <= i < |rs| ==> rs[i].createdAt < clock && rs[i].id < nextId)
  }

  ghost predicate UsersWellFormed(us: seq<User>, clock: nat, nextId: nat) {
    && Ascending(us, UserModel.CreatedAt)
    && Ascending(us, UserModel.IdOf)
    && (forall i :: 0 <= i < |us| ==> us[i].createdAt <= us[i].updatedAt < clock && us[i].id < nextId)
  }

  /** The records of one tenant: `find({ tenantId })`. */
  function ResourcesOf(rs: seq<Resource>, tenantId: Id): (r: seq<Resource>)
    ensures forall x :: x in r <==> x in rs && x.tenantId == tenantId
  {
    Filter(rs, (x: Resource) => x.tenantId == tenantId)
  }

  function UsersOf(us: seq<User>, tenantId: Id): (r: seq<User>)
    ensures forall x :: x in r <==> x in us && x.tenantId == tenantId
  {
    Filter(us, (x: User) => x.tenantId == tenantId)
  }

  /** `.sort({ createdAt: -1 })` */
  function NewestResourcesFirst(rs: seq<Resource>): seq<Resource> {
    SortDesc(rs, ResourceModel.CreatedAt)
  }

  function NewestUsersFirst(us: seq<User>): seq<User> {
    SortDesc(us, UserModel.CreatedAt)
  }

  /** `findOne({ _id: id, tenantId })` on resources. */
  function FindResource(rs: seq<Resource>, id: Id, tenantId: Id): Option<Resource> {
    Find(rs, (x: Resource) => x.id == id && x.tenantId == tenantId)
  }

  /** `findOne({ _id: id, tenantId })` on users. */
  function FindUser(us: seq<User>, id: Id, tenantId: Id): Option<User> {
    Find(us, (x: User) => x.id == id && x.tenantId == tenantId)
  }

  /** `findById(id)`: by id alone, whatever the tenant. */
  function FindUserById(us: seq<User>, id: Id): Option<User> {
    Find(us, (x: User) => x.id == id)
  }

  /** `findOne({ email, tenantId })` */
  function FindUserByEmail(us: seq<User>, email: string, tenantId: Id): Option<User> {
    Find(us, (x: User) => x.email == email && x.tenantId == tenantId)
  }

  /** `Tenant.findOne({ slug })`: the comparison is exact. */
  function FindTenantBySlug(ts: seq<Tenant>, slug: string): Option<Tenant> {
    Find(ts, (t: Tenant) => t.slug == slug)
  }

  function FindTenantById(ts: seq<Tenant>, id: Id): Option<Tenant> {
    Find(ts, (t: Tenant) => t.id == id)
  }

  /** Position of the first user with this id in this tenant. */
  function UserIndex(us: seq<User>, id: Id, tenantId: Id): (r: Option<nat>)
    ensures r.Some? ==> r.value < |us| && us[r.value].id == id && us[r.value].tenantId == tenantId
    ensures r.Some? ==> forall j :: 0 <= j < r.value ==> !(us[j].id == id && us[j].tenantId == tenantId)
    ensures r.None? ==> forall j :: 0 <= j < |us| ==> !(us[j].id == id && us[j].tenantId == tenantId)
    ensures r.None? <==> FindUser(us, id, tenantId).None?
    ensures r.Some? ==> FindUser(us, id, tenantId) == Some(us[r.value])
  {
    if us == [] then None
    else if us[0].id == id && us[0].tenantId == tenantId then Some(0)
    else
      var r := UserIndex(us[1..], id, tenantId);
      assert forall j :: 1 <= j < |us| ==> us[j] == us[1..][j - 1];
      assert FindUser(us, id, tenantId) == FindUser(us[1..], id, tenantId);
      if r.Some? then Some(r.value + 1) else None
  }

  /** In a directory with unique slugs, looking up a tenant's slug finds
      exactly that tenant. */
  lemma FindTenantBySlugUnique(ts: seq<Tenant>, t: Tenant)
    requires UniqueSlugs(ts) && t in ts
    ensures FindTenantBySlug(ts, t.slug) == Some(t)
  {
    var r := FindTenantBySlug(ts, t.slug);
    var i :| 0 <= i < |ts| && ts[i] == t;
    var k :| 0 <= k < |ts| && ts[k] == r.value && forall j :: 0 <= j < k ==> ts[j].slug != t.slug;
    assert k == i;
  }

  lemma ResourcesOfAppend(xs: seq<Resource>, ys: seq<Resource>, tenantId: Id)
    ensures ResourcesOf(xs + ys, tenantId) == ResourcesOf(xs, tenantId) + ResourcesOf(ys, tenantId)
  {
    FilterAppend(xs, ys, (x: Resource) => x.tenantId == tenantId);
  }

  lemma UsersOfAppend(xs: seq<User>, ys: seq<User>, tenantId: Id)
    ensures UsersOf(xs + ys, tenantId) == UsersOf(xs, tenantId) + UsersOf(ys, tenantId)
  {
    FilterAppend(xs, ys, (x: User) => x.tenantId == tenantId);
  }

  lemma UsersOfSingle(x: User, tenantId: Id)
    ensures UsersOf([x], tenantId) == if x.tenantId == tenantId then [x] else []
  {
    assert [x][1..] == [];
  }

  lemma ResourcesOfSingle(x: Resource, tenantId: Id)
    ensures ResourcesOf([x], tenantId) == if x.tenantId == tenantId then [x] else []
  {
    assert [x][1..] == [];
  }

  /** A tenant's records in newest-first order are its records in reverse
      creation order. */
  lemma NewestFirstIsReverse(rs: seq<Resource>, clock: nat, nextId: nat, tenantId: Id)
    requires ResourcesWellFormed(rs, clock, nextId)
    ensures NewestResourcesFirst(ResourcesOf(rs, tenantId)) == Reverse(ResourcesOf(rs, tenantId))
  {
    FilterAscending(rs, (x: Resource) => x.tenantId == tenantId, ResourceModel.CreatedAt);
    SortAscendingIsReverse(ResourcesOf(rs, tenantId), ResourceModel.CreatedAt);
  }

  /** Removing one element keeps a strictly ascending order. */
  lemma RemoveAscending<T>(xs: seq<T>, k: nat, key: T -> int)
    requires k < |xs| && Ascending(xs, key)
    ensures Ascending(xs[..k] + xs[k + 1..], key)
  {
    var ys := xs[..k] + xs[k + 1..];
    forall i, j | 0 <= i < j < |ys| ensures key(ys[i]) < key(ys[j]) {
      var i' := if i < k then i else i + 1;
      var j' := if j < k then j else j + 1;
      assert ys[i] == xs[i'] && ys[j] == xs[j'];
    }
  }

  /** A user record after `save()` with these profile fields: when none of
      them differs from the stored value nothing is modified and nothing is
      written, so `updatedAt` keeps its value; otherwise the fields change
      and `updatedAt` becomes `now`. */
  function Saved(u: User, email: string, name: Option<string>, role: Option<string>, now: nat): (v: User)
    ensures v.email == email && v.name == name && v.role == role
    ensures v.id == u.id && v.tenantId == u.tenantId && v.password == u.password && v.createdAt == u.createdAt
    ensures v == u <==> u.email == email && u.name == name && u.role == role
    ensures v != u ==> v.updatedAt == now
  {
    if u.email == email && u.name == name && u.role == role then u
    else u.(email := email, name := name, role := role, updatedAt := now)
  }

  /** Removing one user keeps the collection well formed. */
  lemma RemoveUserWellFormed(us: seq<User>, k: nat, clock: nat, nextId: nat)
    requires k < |us| && UsersWellFormed(us, clock, nextId)
    ensures UsersWellFormed(us[..k] + us[k + 1..], clock, nextId)
  {
    var vs := us[..k] + us[k + 1..];
    RemoveAscending(us, k, UserModel.CreatedAt);
    RemoveAscending(us, k, UserModel.IdOf);
    forall i | 0 <= i < |vs| ensures vs[i].createdAt <= vs[i].updatedAt < clock && vs[i].id < nextId {
      assert vs[i] == us[if i < k then i else i + 1];
    }
  }

  class Database {
    var tenants: seq<Tenant>
    var resources: seq<Resource>
    var users: seq<User>
    var clock: nat   // the next timestamp
    var nextId: nat  // the next fresh ObjectId

    ghost predicate Valid()
      reads this
    {
      && TenantsWellFormed(tenants, nextId)
      && ResourcesWellFormed(resources, clock, nextId)
      && UsersWellFormed(users, clock, nextId)
    }

    constructor ()
      ensures Valid()
      ensures tenants == [] && resources == [] && users == []
    {
      tenants, resources, users := [], [], [];
      clock, nextId := 0, 0;
    }

    /** `Tenant.create`: validation first, then the unique index on `slug`. */
    method InsertTenant(input: TenantInput, env: Env) returns (r: Checked<Tenant>)
      requires Valid()
      modifies this
      ensures Valid()
      ensures resources == old(resources) && users == old(users) && clock == old(clock)
      ensures NewTenant(old(nextId), input, env).Rejected? ==> r == NewTenant(old(nextId), input, env)
      ensures (NewTenant(old(nextId), input, env).Accepted? && FindTenantBySlug(old(tenants), input.slug.value).Some?)
                ==> r == Duplicate("slug")
      ensures r.Accepted? <==> NewTenant(old(nextId), input, env).Accepted?
                               && FindTenantBySlug(old(tenants), input.slug.value).None?
      ensures r.Accepted? ==> r == NewTenant(old(nextId), input, env)
                              && tenants == old(tenants) + [r.doc] && nextId == old(nextId) + 1
      ensures !r.Accepted? ==> tenants == old(tenants) && nextId == old(nextId)
    {
      r := NewTenant(nextId, input, env);
      if r.Accepted? {
        if FindTenantBySlug(tenants, r.doc.slug).Some? {
          r := Duplicate("slug");
        } else {
          tenants := tenants + [r.doc];
          nextId := nextId + 1;
        }
      }
    }

    /** `Resource.create`, stamped with a fresh id and the current time. */
    method InsertResource(tenantId: Id, title: Option<string>, content: Option<string>)
      returns (r: Checked<Resource>)
      requires Valid()
      modifies this
      ensures Valid()
      ensures tenants == old(tenants) && users == old(users)
      ensures r == NewResource(old(nextId), tenantId, title, content, old(clock))
      ensures r.Accepted? ==> resources == old(resources) + [r.doc]
                              && clock == old(clock) + 1 && nextId == old(nextId) + 1
      ensures !r.Accepted? ==> resources == old(resources) && clock == old(clock) && nextId == old(nextId)
    {
      r := NewResource(nextId, tenantId, title, content, clock);
      if r.Accepted? {
        resources := resources + [r.doc];
        clock, nextId := clock + 1, nextId + 1;
      }
    }

    /** `User.create`, stamped with a fresh id and the current time. */
    method InsertUser(tenantId: Id, email: string, name: Option<string>, role: Option<string>, password: string)
      returns (r: Checked<User>)
      requires Valid()
      modifies this
      ensures Valid()
      ensures tenants == old(tenants) && resources == old(resources)
      ensures r == NewUser(old(nextId), tenantId, email, name, role, password, old(clock))
      ensures r.Accepted? ==> users == old(users) + [r.doc]
                              && clock == old(clock) + 1 && nextId == old(nextId) + 1
      ensures !r.Accepted? ==> users == old(users) && clock == old(clock) && nextId == old(nextId)
    {
      r := NewUser(nextId, tenantId, email, name, role, password, clock);
      if r.Accepted? {
        users := users + [r.doc];
        clock, nextId := clock + 1, nextId + 1;
      }
    }

    /** `user.save()` after assigning the profile fields: the record at
      position `k` becomes its `Saved` form; the clock advances only when
      something was written. */
    method SaveUser(k: nat, email: string, name: Option<string>, role: Option<string>)
      requires Valid() && k < |users|
      modifies this
      ensures Valid()
      ensures tenants == old(tenants) && resources == old(resources) && nextId == old(nextId)
      ensures users == old(users)[k := Saved(old(users)[k], email, name, role, old(clock))]
      ensures clock == if users == old(users) then old(clock) else old(clock) + 1
    {
      var v := Saved(users[k], email, name, role, clock);
      if v != users[k] {
        users := users[k := v];
        clock := clock + 1;
      } else {
        assert users[k := v] == users;
      }
    }

    /** `findOneAndDelete({ _id: id, tenantId })`: removes the first match
      and returns it. */
    method DeleteUser(id: Id, tenantId: Id) returns (deleted: Option<User>)
      requires Valid()
      modifies this
      ensures Valid()
      ensures tenants == old(tenants) && resources == old(resources)
      ensures clock == old(clock) && nextId == old(nextId)
      ensures deleted == FindUser(old(users), id, tenantId)
      ensures deleted.None? ==> users == old(users)
      ensures deleted.Some? ==> var k := UserIndex(old(users), id, tenantId).value;
                                users == old(users)[..k] + old(users)[k + 1..]
    {
      var k := UserIndex(users, id, tenantId);
      deleted := FindUser(users, id, tenantId);
      if k.Some? {
        RemoveUserWellFormed(users, k.value, clock, nextId);
        users := users[..k.value] + users[k.value + 1..];
      }
    }
  }
}
