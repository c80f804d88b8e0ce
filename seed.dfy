/**
 * The bootstrap script `prisma/seed.ts`: upsert the four permissions by name,
 * upsert the `admin` and `user` roles by name, and connect `admin@test.com`
 * to `admin` when that account exists and does not hold it yet. Every upsert
 * has an empty `update`, so it creates what is missing and changes nothing
 * that exists.
 */
module Seed {
  import opened Wrappers
  import opened Schema

  /** The three tables the script touches. */
  datatype Db = Db(permissions: seq<Permission>, roles: seq<Role>, users: seq<User>)

  const ADMIN_EMAIL: string := "admin@test.com"
  const ADMIN_ROLE: string := "admin"
  const USER_ROLE: string := "user"
  const USER_READ: string := "user:read"
  const USER_WRITE: string := "user:write"
  const ROLE_READ: string := "role:read"
  const ROLE_WRITE: string := "role:write"

  /** The permission catalogue, in the order the script upserts it. */
  const CATALOGUE: seq<string> := [USER_READ, USER_WRITE, ROLE_READ, ROLE_WRITE]

  /** The ids the database would give each row the script may create. */
  datatype FreshIds = FreshIds(userRead: Id, userWrite: Id, roleRead: Id, roleWrite: Id, admin: Id, user: Id)

  /** A table after an upsert, and the row the upsert returned. */
  datatype Upserted<T> = Upserted(table: seq<T>, row: T)

  /**
   * `upsert({where: {<key>: k}, update: {}, create})`: the first row whose
   * `key` is `k` is returned untouched; when there is none, `create` is
   * appended and returned.
   */
  function Upsert<T>(rows: seq<T>, key: T -> string, k: string, create: T): Upserted<T>
  {
    match Find(rows, key, k)
    case Some(i) => Upserted(rows, rows[i])
    case None => Upserted(rows + [create], create)
  }

  /** `permission.upsert({where: {name}, update: {}, create: {name, description}})`. */
  function UpsertPermission(ps: seq<Permission>, name: string, description: string, id: Id): Upserted<Permission>
  {
    Upsert(ps, PermissionName, name, Permission(id, name, Some(description)))
  }

  /** `role.upsert({where: {name}, update: {}, create: {name, description, permissions: {connect}}})`. */
  function UpsertRole(rs: seq<Role>, name: string, description: string, connect: set<Id>, id: Id): Upserted<Role>
  {
    Upsert(rs, RoleName, name, Role(id, name, Some(description), connect))
  }

  /** The ids of the listed permissions, `ps.map(p => ({id: p.id}))`. */
  function IdsOf(ps: seq<Permission>): set<Id>
  {
    set p | p in ps :: p.id
  }

  /** The ids of the listed permissions whose name is in `names`. */
  function IdsNamed(ps: seq<Permission>, names: set<string>): set<Id>
  {
    set p | p in ps && p.name in names :: p.id
  }

  /** `user.roles.some(r => r.name === name)`, the user's roles read from the role table. */
  predicate HoldsRoleNamed(roles: seq<Role>, u: User, name: string)
  {
    exists i :: 0 <= i < |roles| && roles[i].id in u.roles && roles[i].name == name
  }

  /** Lines 54-64: connect `admin@test.com` to `admin` when it exists and holds no role named `admin`. */
  function GrantAdmin(users: seq<User>, roles: seq<Role>, admin: Role): seq<User>
  {
    match Find(users, UserEmail, ADMIN_EMAIL)
    case None => users
    case Some(k) =>
      if HoldsRoleNamed(roles, users[k], ADMIN_ROLE) then users
      else users[k := users[k].(roles := users[k].roles + {admin.id})]
  }

  /** The four upserts of lines 7-28, in the order they are listed. */
  datatype PermissionSteps = PermissionSteps(
    userRead: Upserted<Permission>, userWrite: Upserted<Permission>,
    roleRead: Upserted<Permission>, roleWrite: Upserted<Permission>)

  /** The rows the four permission upserts would create. */
  function Created(ids: FreshIds): seq<Permission>
  {
    [ Permission(ids.userRead, USER_READ, Some("Read user data")),
      Permission(ids.userWrite, USER_WRITE, Some("Create/update/delete users")),
      Permission(ids.roleRead, ROLE_READ, Some("Read roles and permissions")),
      Permission(ids.roleWrite, ROLE_WRITE, Some("Create/update/delete roles and assign to users")) ]
  }

  function UpsertCatalogue(ps: seq<Permission>, ids: FreshIds): PermissionSteps
  {
    var c := Created(ids);
    var ur := Upsert(ps, PermissionName, USER_READ, c[0]);
    var uw := Upsert(ur.table, PermissionName, USER_WRITE, c[1]);
    var rr := Upsert(uw.table, PermissionName, ROLE_READ, c[2]);
    var rw := Upsert(rr.table, PermissionName, ROLE_WRITE, c[3]);
    PermissionSteps(ur, uw, rr, rw)
  }

  /** The `permissions` array of line 7: the four rows the upserts returned. */
  function Granted(p: PermissionSteps): seq<Permission>
  {
    [p.userRead.row, p.userWrite.row, p.roleRead.row, p.roleWrite.row]
  }

  /** The two role upserts of lines 31-51. */
  datatype RoleSteps = RoleSteps(admin: Upserted<Role>, user: Upserted<Role>)

  /** The rows the role upserts would create, connected to the permission rows upserted before them. */
  function AdminRow(granted: seq<Permission>, ids: FreshIds): Role
  {
    Role(ids.admin, ADMIN_ROLE, Some("Administrator with full access"), IdsOf(granted))
  }

  function UserRow(granted: seq<Permission>, ids: FreshIds): Role
  {
    Role(ids.user, USER_ROLE, Some("Regular user"), IdsNamed(granted, {USER_READ, USER_WRITE}))
  }

  function UpsertRoles(rs: seq<Role>, granted: seq<Permission>, ids: FreshIds): RoleSteps
  {
    var admin := Upsert(rs, RoleName, ADMIN_ROLE, AdminRow(granted, ids));
    var user := Upsert(admin.table, RoleName, USER_ROLE, UserRow(granted, ids));
    RoleSteps(admin, user)
  }

  /** The state after `main`. */
  function Seeded(db: Db, ids: FreshIds): Db
  {
    var p := UpsertCatalogue(db.permissions, ids);
    var r := UpsertRoles(db.roles, Granted(p), ids);
    Db(p.roleWrite.table, r.user.table, GrantAdmin(db.users, r.user.table, r.admin.row))
  }

  // ---------------------------------------------------------------------
  // Table invariants
  // ---------------------------------------------------------------------

  /** Unique names, emails and ids, and every connection points at an existing row. */
  ghost predicate ValidDb(db: Db)
  {
    && Unique(db.permissions, PermissionName) && Unique(db.permissions, PermissionId)
    && Unique(db.roles, RoleName) && Unique(db.roles, RoleId)
    && UniqueUsers(db.users)
    && RolesReferTo(db.roles, db.permissions)
    && UsersReferTo(db.users, db.roles)
  }

  /** Every permission a role is connected to is a row of `ps`. */
  ghost predicate RolesReferTo(roles: seq<Role>, ps: seq<Permission>)
  {
    forall i, pid :: 0 <= i < |roles| && pid in roles[i].permissions ==> Present(ps, PermissionId, pid)
  }

  /** Every role a user is connected to is a row of `roles`. */
  ghost predicate UsersReferTo(users: seq<User>, roles: seq<Role>)
  {
    forall i, rid :: 0 <= i < |users| && rid in users[i].roles ==> Present(roles, RoleId, rid)
  }

  /** The generated ids are unused and distinct, as the database guarantees. */
  ghost predicate Fresh(db: Db, ids: FreshIds)
  {
    && !Present(db.permissions, PermissionId, ids.userRead)
    && !Present(db.permissions, PermissionId, ids.userWrite)
    && !Present(db.permissions, PermissionId, ids.roleRead)
    && !Present(db.permissions, PermissionId, ids.roleWrite)
    && |{ids.userRead, ids.userWrite, ids.roleRead, ids.roleWrite}| == 4
    && !Present(db.roles, RoleId, ids.admin)
    && !Present(db.roles, RoleId, ids.user)
    && ids.admin != ids.user
  }

  /** Exactly one row has `k` in column `key`. */
  ghost predicate ExactlyOne<T>(rows: seq<T>, key: T -> string, k: string)
  {
    Present(rows, key, k) && forall i, j :: 0 <= i < |rows| && 0 <= j < |rows| && key(rows[i]) == k && key(rows[j]) == k ==> i == j
  }

  // ---------------------------------------------------------------------
  // One upsert
  // ---------------------------------------------------------------------

  /** What an upsert leaves: the table grows by at most `create`, and the returned row is the one found by `k`. */
  lemma UpsertStep<T>(rows: seq<T>, key: T -> string, k: string, create: T)
    requires key(create) == k
    ensures var u := Upsert(rows, key, k, create);
      && Grows(rows, u.table)
      && (Present(rows, key, k) ==> u.table == rows)
      && (!Present(rows, key, k) ==> u.table == rows + [create] && u.row == create)
      && Find(u.table, key, k).Some? && u.table[Find(u.table, key, k).value] == u.row
  {
    var u := Upsert(rows, key, k, create);
    if Find(rows, key, k).None? {
      assert u.table[..|rows|] == rows;
      FindAppend(rows, [create], key, k);
      assert Find([create], key, k) == Some(0);
    }
  }

  /** After an upsert, a value of another column is present only if it was before or is the created row's. */
  lemma UpsertPresent<T>(rows: seq<T>, key: T -> string, idKey: T -> string, k: string, create: T, x: string)
    requires Present(Upsert(rows, key, k, create).table, idKey, x)
    ensures Present(rows, idKey, x) || x == idKey(create)
  {
    if Find(rows, key, k).None? {
      PresentAppend(rows, idKey, create, x);
    }
  }

  /** An upsert whose created row has an unused id keeps the key and the id unique. */
  lemma UpsertKeepsUnique<T>(rows: seq<T>, key: T -> string, idKey: T -> string, k: string, create: T)
    requires key(create) == k
    requires Unique(rows, key) && Unique(rows, idKey) && !Present(rows, idKey, idKey(create))
    ensures Unique(Upsert(rows, key, k, create).table, key) && Unique(Upsert(rows, key, k, create).table, idKey)
  {
    if Find(rows, key, k).None? {
      UniqueAppend(rows, key, create);
      UniqueAppend(rows, idKey, create);
    }
  }

  /** The row an upsert returned stays the one found by its key while the table grows. */
  lemma RowStays<T>(rows: seq<T>, longer: seq<T>, key: T -> string, k: string, row: T)
    requires Grows(rows, longer) && Find(rows, key, k).Some? && rows[Find(rows, key, k).value] == row
    ensures Find(longer, key, k).Some? && longer[Find(longer, key, k).value] == row
  {
    FindGrows(rows, longer, key, k);
  }

  // ---------------------------------------------------------------------
  // The permission phase (lines 7-28)
  // ---------------------------------------------------------------------

  /** The permission table only grows, and each catalogue name is found in it at the row its upsert returned. */
  lemma PermissionPhase(ps: seq<Permission>, ids: FreshIds)
    ensures var p := UpsertCatalogue(ps, ids); var ps' := p.roleWrite.table;
      && Grows(ps, ps')
      && Find(ps', PermissionName, USER_READ).Some? && ps'[Find(ps', PermissionName, USER_READ).value] == p.userRead.row
      && Find(ps', PermissionName, USER_WRITE).Some? && ps'[Find(ps', PermissionName, USER_WRITE).value] == p.userWrite.row
      && Find(ps', PermissionName, ROLE_READ).Some? && ps'[Find(ps', PermissionName, ROLE_READ).value] == p.roleRead.row
      && Find(ps', PermissionName, ROLE_WRITE).Some? && ps'[Find(ps', PermissionName, ROLE_WRITE).value] == p.roleWrite.row
  {
    var p := UpsertCatalogue(ps, ids);
    var c := Created(ids);
    var p1, p2, p3, p4 := p.userRead.table, p.userWrite.table, p.roleRead.table, p.roleWrite.table;
    UpsertStep(ps, PermissionName, USER_READ, c[0]);
    UpsertStep(p1, PermissionName, USER_WRITE, c[1]);
    UpsertStep(p2, PermissionName, ROLE_READ, c[2]);
    UpsertStep(p3, PermissionName, ROLE_WRITE, c[3]);
    GrowsTransitive(p1, p2, p3);
    GrowsTransitive(p1, p3, p4);
    GrowsTransitive(ps, p1, p4);
    RowStays(p1, p4, PermissionName, USER_READ, p.userRead.row);
    RowStays(p2, p4, PermissionName, USER_WRITE, p.userWrite.row);
    RowStays(p3, p4, PermissionName, ROLE_READ, p.roleRead.row);
  }

  /** Fresh ids keep permission names and ids unique through the four upserts. */
  lemma PermissionsStayUnique(ps: seq<Permission>, ids: FreshIds)
    requires Unique(ps, PermissionName) && Unique(ps, PermissionId)
    requires !Present(ps, PermissionId, ids.userRead) && !Present(ps, PermissionId, ids.userWrite)
    requires !Present(ps, PermissionId, ids.roleRead) && !Present(ps, PermissionId, ids.roleWrite)
    requires |{ids.userRead, ids.userWrite, ids.roleRead, ids.roleWrite}| == 4
    ensures Unique(UpsertCatalogue(ps, ids).roleWrite.table, PermissionName)
    ensures Unique(UpsertCatalogue(ps, ids).roleWrite.table, PermissionId)
  {
    var p := UpsertCatalogue(ps, ids);
    var c := Created(ids);
    var p1, p2, p3 := p.userRead.table, p.userWrite.table, p.roleRead.table;
    UpsertKeepsUnique(ps, PermissionName, PermissionId, USER_READ, c[0]);
    if Present(p1, PermissionId, ids.userWrite) {
      UpsertPresent(ps, PermissionName, PermissionId, USER_READ, c[0], ids.userWrite);
    }
    UpsertKeepsUnique(p1, PermissionName, PermissionId, USER_WRITE, c[1]);
    if Present(p2, PermissionId, ids.roleRead) {
      UpsertPresent(p1, PermissionName, PermissionId, USER_WRITE, c[1], ids.roleRead);
      UpsertPresent(ps, PermissionName, PermissionId, USER_READ, c[0], ids.roleRead);
    }
    UpsertKeepsUnique(p2, PermissionName, PermissionId, ROLE_READ, c[2]);
    if Present(p3, PermissionId, ids.roleWrite) {
      UpsertPresent(p2, PermissionName, PermissionId, ROLE_READ, c[2], ids.roleWrite);
      UpsertPresent(p1, PermissionName, PermissionId, USER_WRITE, c[1], ids.roleWrite);
      UpsertPresent(ps, PermissionName, PermissionId, USER_READ, c[0], ids.roleWrite);
    }
    UpsertKeepsUnique(p3, PermissionName, PermissionId, ROLE_WRITE, c[3]);
  }

  // ---------------------------------------------------------------------
  // The role phase (lines 31-51)
  // ---------------------------------------------------------------------

  /** The role table only grows and `admin` and `user` are found in it at the rows their upserts returned. */
  lemma RolePhase(rs: seq<Role>, granted: seq<Permission>, ids: FreshIds)
    ensures var r := UpsertRoles(rs, granted, ids); var rs' := r.user.table;
      && Grows(rs, r.admin.table) && Grows(r.admin.table, rs') && Grows(rs, rs')
      && Find(rs', RoleName, ADMIN_ROLE).Some? && rs'[Find(rs', RoleName, ADMIN_ROLE).value] == r.admin.row
      && Find(rs', RoleName, USER_ROLE).Some? && rs'[Find(rs', RoleName, USER_ROLE).value] == r.user.row
      && (!Present(rs, RoleName, ADMIN_ROLE) ==> r.admin.table == rs + [AdminRow(granted, ids)])
      && (!Present(rs, RoleName, USER_ROLE) ==> r.user.row == UserRow(granted, ids))
      && (forall i :: |rs| <= i < |rs'| ==> rs'[i] == AdminRow(granted, ids) || rs'[i] == UserRow(granted, ids))
  {
    var r := UpsertRoles(rs, granted, ids);
    UpsertStep(rs, RoleName, ADMIN_ROLE, AdminRow(granted, ids));
    UpsertStep(r.admin.table, RoleName, USER_ROLE, UserRow(granted, ids));
    GrowsTransitive(rs, r.admin.table, r.user.table);
    RowStays(r.admin.table, r.user.table, RoleName, ADMIN_ROLE, r.admin.row);
    if !Present(rs, RoleName, USER_ROLE) && !Present(rs, RoleName, ADMIN_ROLE) {
      PresentAppend(rs, RoleName, AdminRow(granted, ids), USER_ROLE);
    }
  }

  /** The role table after the role upserts holds only old ids and the two fresh ones. */
  lemma RoleIds(rs: seq<Role>, granted: seq<Permission>, ids: FreshIds, x: Id)
    requires Present(UpsertRoles(rs, granted, ids).user.table, RoleId, x)
    ensures Present(rs, RoleId, x) || x == ids.admin || x == ids.user
  {
    var r := UpsertRoles(rs, granted, ids);
    UpsertPresent(r.admin.table, RoleName, RoleId, USER_ROLE, UserRow(granted, ids), x);
    if Present(r.admin.table, RoleId, x) {
      UpsertPresent(rs, RoleName, RoleId, ADMIN_ROLE, AdminRow(granted, ids), x);
    }
  }

  /** Fresh ids keep role names and ids unique through the two upserts. */
  lemma RolesStayUnique(rs: seq<Role>, granted: seq<Permission>, ids: FreshIds)
    requires Unique(rs, RoleName) && Unique(rs, RoleId)
    requires !Present(rs, RoleId, ids.admin) && !Present(rs, RoleId, ids.user) && ids.admin != ids.user
    ensures Unique(UpsertRoles(rs, granted, ids).user.table, RoleName)
    ensures Unique(UpsertRoles(rs, granted, ids).user.table, RoleId)
  {
    var r := UpsertRoles(rs, granted, ids);
    UpsertKeepsUnique(rs, RoleName, RoleId, ADMIN_ROLE, AdminRow(granted, ids));
    if Present(r.admin.table, RoleId, ids.user) {
      UpsertPresent(rs, RoleName, RoleId, ADMIN_ROLE, AdminRow(granted, ids), ids.user);
    }
    UpsertKeepsUnique(r.admin.table, RoleName, RoleId, USER_ROLE, UserRow(granted, ids));
  }

  // ---------------------------------------------------------------------
  // The admin grant (lines 54-64)
  // ---------------------------------------------------------------------

  /** The grant changes only the roles of the `admin@test.com` row, and only by adding `admin`. */
  lemma GrantAdminEffect(users: seq<User>, roles: seq<Role>, admin: Role)
    ensures var users' := GrantAdmin(users, roles, admin);
      && |users'| == |users|
      && (forall j :: 0 <= j < |users| ==>
            || users'[j] == users[j]
            || (users[j].email == ADMIN_EMAIL && users'[j] == users[j].(roles := users[j].roles + {admin.id})))
      && (users' != users ==>
            Find(users, UserEmail, ADMIN_EMAIL).Some? && !HoldsRoleNamed(roles, users[Find(users, UserEmail, ADMIN_EMAIL).value], ADMIN_ROLE))
      && (forall j :: 0 <= j < |users| ==> users'[j].email == users[j].email && users'[j].id == users[j].id)
      && Find(users', UserEmail, ADMIN_EMAIL) == Find(users, UserEmail, ADMIN_EMAIL)
  {
    var users' := GrantAdmin(users, roles, admin);
    FindSameKeys(users, users', UserEmail, ADMIN_EMAIL);
  }

  /** Once the grant has run with `admin` in the role table, the account holds a role named `admin`. */
  lemma GrantAdminHolds(users: seq<User>, roles: seq<Role>, admin: Role)
    requires admin in roles && admin.name == ADMIN_ROLE
    requires Find(users, UserEmail, ADMIN_EMAIL).Some?
    ensures HoldsRoleNamed(roles, GrantAdmin(users, roles, admin)[Find(users, UserEmail, ADMIN_EMAIL).value], ADMIN_ROLE)
  {
    var k := Find(users, UserEmail, ADMIN_EMAIL).value;
    if !HoldsRoleNamed(roles, users[k], ADMIN_ROLE) {
      var i :| 0 <= i < |roles| && roles[i] == admin;
      assert roles[i].id in GrantAdmin(users, roles, admin)[k].roles;
    }
  }

  /** Granting twice is granting once. */
  lemma GrantAdminIdempotent(users: seq<User>, roles: seq<Role>, admin: Role, admin': Role)
    requires admin in roles && admin.name == ADMIN_ROLE
    ensures GrantAdmin(GrantAdmin(users, roles, admin), roles, admin') == GrantAdmin(users, roles, admin)
  {
    GrantAdminEffect(users, roles, admin);
    if Find(users, UserEmail, ADMIN_EMAIL).Some? {
      GrantAdminHolds(users, roles, admin);
    }
  }

  /**
   * In a table with unique names that holds `rows`, and where `rows` has a row
   * for every name in `names`, the ids named `names` are those of `rows`.
   */
  lemma NamedRowsAre(final: seq<Permission>, rows: seq<Permission>, names: set<string>)
    requires Unique(final, PermissionName)
    requires forall p :: p in rows ==> p in final
    requires forall n :: n in names ==> exists p :: p in rows && p.name == n
    ensures IdsNamed(final, names) == IdsNamed(rows, names)
  {
    forall x | x in IdsNamed(final, names)
      ensures x in IdsNamed(rows, names)
    {
      var p :| p in final && p.name in names && p.id == x;
      var q :| q in rows && q.name == p.name;
      var i :| 0 <= i < |final| && final[i] == p;
      var j :| 0 <= j < |final| && final[j] == q;
      assert PermissionName(final[i]) == PermissionName(final[j]);
    }
  }

  /** Holding a role named `name` is kept when rows are appended to the role table. */
  lemma HoldsRoleNamedGrows(roles: seq<Role>, longer: seq<Role>, u: User, name: string)
    requires Grows(roles, longer)
    ensures HoldsRoleNamed(roles, u, name) ==> HoldsRoleNamed(longer, u, name)
  {
    if HoldsRoleNamed(roles, u, name) {
      var i :| 0 <= i < |roles| && roles[i].id in u.roles && roles[i].name == name;
      assert longer[i] == roles[i];
    }
  }

  /** Once every catalogue name is present, the permission upserts change nothing. */
  lemma CatalogueSettled(ps: seq<Permission>, ids: FreshIds)
    requires forall n :: n in CATALOGUE ==> Present(ps, PermissionName, n)
    ensures UpsertCatalogue(ps, ids).roleWrite.table == ps
  {
    var c := Created(ids);
    assert Present(ps, PermissionName, CATALOGUE[0]);
    assert Present(ps, PermissionName, CATALOGUE[1]);
    assert Present(ps, PermissionName, CATALOGUE[2]);
    assert Present(ps, PermissionName, CATALOGUE[3]);
    UpsertStep(ps, PermissionName, USER_READ, c[0]);
    UpsertStep(ps, PermissionName, USER_WRITE, c[1]);
    UpsertStep(ps, PermissionName, ROLE_READ, c[2]);
    UpsertStep(ps, PermissionName, ROLE_WRITE, c[3]);
  }

  // ---------------------------------------------------------------------
  // Properties of `main`
  // ---------------------------------------------------------------------

  /** Nothing is removed: rows are only appended, and users keep every role they had and all other columns. */
  lemma SeedKeepsExisting(db: Db, ids: FreshIds)
    ensures var s := Seeded(db, ids);
      && Grows(db.permissions, s.permissions)
      && Grows(db.roles, s.roles)
      && |s.users| == |db.users|
      && (forall j :: 0 <= j < |db.users| ==>
            && s.users[j].(roles := db.users[j].roles) == db.users[j]
            && db.users[j].roles <= s.users[j].roles)
      && (forall j :: 0 <= j < |db.users| && db.users[j].email != ADMIN_EMAIL ==> s.users[j] == db.users[j])
  {
    var p := UpsertCatalogue(db.permissions, ids);
    var r := UpsertRoles(db.roles, Granted(p), ids);
    PermissionPhase(db.permissions, ids);
    RolePhase(db.roles, Granted(p), ids);
    GrantAdminEffect(db.users, r.user.table, r.admin.row);
  }

  /** Under a unique constraint, a key that is found is held by exactly one row. */
  lemma FoundExactlyOne<T>(rows: seq<T>, key: T -> string, k: string)
    requires Unique(rows, key) && Find(rows, key, k).Some?
    ensures ExactlyOne(rows, key, k)
  {
  }

  /** `Seeded`, phase by phase. */
  lemma SeededIs(db: Db, ids: FreshIds)
    ensures var p := UpsertCatalogue(db.permissions, ids);
      var r := UpsertRoles(db.roles, Granted(p), ids);
      Seeded(db, ids) == Db(p.roleWrite.table, r.user.table, GrantAdmin(db.users, r.user.table, r.admin.row))
  {
  }

  /** After the permission phase each catalogue name is held by exactly one row. */
  lemma CatalogueOnce(ps: seq<Permission>, ids: FreshIds)
    requires Unique(ps, PermissionName) && Unique(ps, PermissionId)
    requires !Present(ps, PermissionId, ids.userRead) && !Present(ps, PermissionId, ids.userWrite)
    requires !Present(ps, PermissionId, ids.roleRead) && !Present(ps, PermissionId, ids.roleWrite)
    requires |{ids.userRead, ids.userWrite, ids.roleRead, ids.roleWrite}| == 4
    ensures forall n :: n in CATALOGUE ==> ExactlyOne(UpsertCatalogue(ps, ids).roleWrite.table, PermissionName, n)
  {
    var p := UpsertCatalogue(ps, ids);
    PermissionPhase(ps, ids);
    PermissionsStayUnique(ps, ids);
    FoundOnce(p.roleWrite.table);
  }

  /** In a table with unique names where every catalogue name is found, each is held by exactly one row. */
  lemma FoundOnce(ps: seq<Permission>)
    requires Unique(ps, PermissionName)
    requires Find(ps, PermissionName, USER_READ).Some? && Find(ps, PermissionName, USER_WRITE).Some?
    requires Find(ps, PermissionName, ROLE_READ).Some? && Find(ps, PermissionName, ROLE_WRITE).Some?
    ensures forall n :: n in CATALOGUE ==> ExactlyOne(ps, PermissionName, n)
  {
    FoundExactlyOne(ps, PermissionName, USER_READ);
    FoundExactlyOne(ps, PermissionName, USER_WRITE);
    FoundExactlyOne(ps, PermissionName, ROLE_READ);
    FoundExactlyOne(ps, PermissionName, ROLE_WRITE);
  }

  /** Each catalogue permission exists exactly once after the run. */
  lemma SeedCatalogueOnce(db: Db, ids: FreshIds)
    requires ValidDb(db) && Fresh(db, ids)
    ensures forall n :: n in CATALOGUE ==> ExactlyOne(Seeded(db, ids).permissions, PermissionName, n)
  {
    SeededIs(db, ids);
    CatalogueOnce(db.permissions, ids);
  }

  /** The four rows the permission upserts returned are rows of the final table, one per catalogue name. */
  lemma GrantedRows(ps: seq<Permission>, ids: FreshIds)
    ensures var p := UpsertCatalogue(ps, ids);
      && (forall q :: q in Granted(p) ==> q in p.roleWrite.table)
      && Granted(p)[0].name == USER_READ && Granted(p)[1].name == USER_WRITE
      && Granted(p)[2].name == ROLE_READ && Granted(p)[3].name == ROLE_WRITE
  {
    PermissionPhase(ps, ids);
  }

  /** The admin row created by the role phase, against the permission table the permission phase left. */
  lemma AdminRowCreated(ps: seq<Permission>, rs: seq<Role>, ids: FreshIds)
    requires Unique(ps, PermissionName) && Unique(ps, PermissionId)
    requires !Present(ps, PermissionId, ids.userRead) && !Present(ps, PermissionId, ids.userWrite)
    requires !Present(ps, PermissionId, ids.roleRead) && !Present(ps, PermissionId, ids.roleWrite)
    requires |{ids.userRead, ids.userWrite, ids.roleRead, ids.roleWrite}| == 4
    requires !Present(rs, RoleName, ADMIN_ROLE)
    ensures var p := UpsertCatalogue(ps, ids); var rs' := UpsertRoles(rs, Granted(p), ids).user.table;
      && |rs| < |rs'|
      && rs'[|rs|] == Role(ids.admin, ADMIN_ROLE, Some("Administrator with full access"),
                           IdsNamed(p.roleWrite.table, set n | n in CATALOGUE))
  {
    var p := UpsertCatalogue(ps, ids);
    AdminGrantsNamed(ps, ids);
    RolePhase(rs, Granted(p), ids);
  }

  /** The permissions the `admin` role connects to are the four catalogue rows. */
  lemma AdminGrantsNamed(ps: seq<Permission>, ids: FreshIds)
    requires Unique(ps, PermissionName) && Unique(ps, PermissionId)
    requires !Present(ps, PermissionId, ids.userRead) && !Present(ps, PermissionId, ids.userWrite)
    requires !Present(ps, PermissionId, ids.roleRead) && !Present(ps, PermissionId, ids.roleWrite)
    requires |{ids.userRead, ids.userWrite, ids.roleRead, ids.roleWrite}| == 4
    ensures var p := UpsertCatalogue(ps, ids);
      IdsNamed(p.roleWrite.table, set n | n in CATALOGUE) == IdsOf(Granted(p))
  {
    var p := UpsertCatalogue(ps, ids);
    PermissionsStayUnique(ps, ids);
    GrantedRows(ps, ids);
    AdminRowsNamed(p.roleWrite.table, Granted(p));
  }

  /** Any table holding the granted rows names the catalogue by exactly the ids of those rows. */
  lemma AdminRowsNamed(final: seq<Permission>, g: seq<Permission>)
    requires Unique(final, PermissionName) && forall q :: q in g ==> q in final
    requires |g| == 4 && g[0].name == USER_READ && g[1].name == USER_WRITE
    requires g[2].name == ROLE_READ && g[3].name == ROLE_WRITE
    ensures IdsNamed(final, set n | n in CATALOGUE) == IdsOf(g)
  {
    forall q | q in g
      ensures q.name in CATALOGUE
    {
      var i :| 0 <= i < |g| && g[i] == q;
      assert i == 0 || i == 1 || i == 2 || i == 3;
    }
    forall n | n in CATALOGUE
      ensures exists q :: q in g && q.name == n
    {
      assert n == g[0].name || n == g[1].name || n == g[2].name || n == g[3].name;
    }
    NamedRowsAre(final, g, set n | n in CATALOGUE);
  }

  /** If `admin` was missing, it is created connected to exactly the four catalogue permissions. */
  lemma AdminRoleCreated(db: Db, ids: FreshIds)
    requires ValidDb(db) && Fresh(db, ids) && !Present(db.roles, RoleName, ADMIN_ROLE)
    ensures var s := Seeded(db, ids);
      && |db.roles| < |s.roles|
      && s.roles[|db.roles|] == Role(ids.admin, ADMIN_ROLE, Some("Administrator with full access"),
                                     IdsNamed(s.permissions, set n | n in CATALOGUE))
  {
    SeededIs(db, ids);
    AdminRowCreated(db.permissions, db.roles, ids);
  }

  /** The user row created by the role phase, against the permission table the permission phase left. */
  lemma UserRowCreated(ps: seq<Permission>, rs: seq<Role>, ids: FreshIds)
    requires Unique(ps, PermissionName) && Unique(ps, PermissionId)
    requires !Present(ps, PermissionId, ids.userRead) && !Present(ps, PermissionId, ids.userWrite)
    requires !Present(ps, PermissionId, ids.roleRead) && !Present(ps, PermissionId, ids.roleWrite)
    requires |{ids.userRead, ids.userWrite, ids.roleRead, ids.roleWrite}| == 4
    requires !Present(rs, RoleName, USER_ROLE)
    ensures var p := UpsertCatalogue(ps, ids); var rs' := UpsertRoles(rs, Granted(p), ids).user.table;
      && Find(rs', RoleName, USER_ROLE).Some?
      && rs'[Find(rs', RoleName, USER_ROLE).value] ==
         Role(ids.user, USER_ROLE, Some("Regular user"), IdsNamed(p.roleWrite.table, {USER_READ, USER_WRITE}))
  {
    var p := UpsertCatalogue(ps, ids);
    UserGrantsNamed(ps, ids);
    RolePhase(rs, Granted(p), ids);
  }

  /** The permissions the `user` role connects to are the catalogue rows named `user:read` and `user:write`. */
  lemma UserGrantsNamed(ps: seq<Permission>, ids: FreshIds)
    requires Unique(ps, PermissionName) && Unique(ps, PermissionId)
    requires !Present(ps, PermissionId, ids.userRead) && !Present(ps, PermissionId, ids.userWrite)
    requires !Present(ps, PermissionId, ids.roleRead) && !Present(ps, PermissionId, ids.roleWrite)
    requires |{ids.userRead, ids.userWrite, ids.roleRead, ids.roleWrite}| == 4
    ensures var p := UpsertCatalogue(ps, ids);
      IdsNamed(p.roleWrite.table, {USER_READ, USER_WRITE}) == IdsNamed(Granted(p), {USER_READ, USER_WRITE})
  {
    var p := UpsertCatalogue(ps, ids);
    PermissionsStayUnique(ps, ids);
    GrantedRows(ps, ids);
    UserRowsNamed(p.roleWrite.table, Granted(p));
  }

  /** Any table holding the granted rows names `user:read` and `user:write` by exactly their ids. */
  lemma UserRowsNamed(final: seq<Permission>, g: seq<Permission>)
    requires Unique(final, PermissionName) && forall q :: q in g ==> q in final
    requires |g| >= 2 && g[0].name == USER_READ && g[1].name == USER_WRITE
    ensures IdsNamed(final, {USER_READ, USER_WRITE}) == IdsNamed(g, {USER_READ, USER_WRITE})
  {
    var names := {USER_READ, USER_WRITE};
    forall n | n in names
      ensures exists q :: q in g && q.name == n
    {
      if n == USER_READ { assert g[0] in g; } else { assert g[1] in g; }
    }
    NamedRowsAre(final, g, names);
  }

  /** If `user` was missing, it is created connected to exactly `user:read` and `user:write`. */
  lemma UserRoleCreated(db: Db, ids: FreshIds)
    requires ValidDb(db) && Fresh(db, ids) && !Present(db.roles, RoleName, USER_ROLE)
    ensures var s := Seeded(db, ids);
      && Find(s.roles, RoleName, USER_ROLE).Some?
      && s.roles[Find(s.roles, RoleName, USER_ROLE).value] ==
         Role(ids.user, USER_ROLE, Some("Regular user"), IdsNamed(s.permissions, {USER_READ, USER_WRITE}))
  {
    SeededIs(db, ids);
    UserRowCreated(db.permissions, db.roles, ids);
  }

  /** After the run, an existing `admin@test.com` holds a role named `admin`. */
  lemma AdminAccountHoldsAdmin(db: Db, ids: FreshIds)
    requires Present(db.users, UserEmail, ADMIN_EMAIL)
    ensures var s := Seeded(db, ids);
      && Find(s.users, UserEmail, ADMIN_EMAIL).Some?
      && HoldsRoleNamed(s.roles, s.users[Find(s.users, UserEmail, ADMIN_EMAIL).value], ADMIN_ROLE)
  {
    var p := UpsertCatalogue(db.permissions, ids);
    var r := UpsertRoles(db.roles, Granted(p), ids);
    RolePhase(db.roles, Granted(p), ids);
    GrantAdminEffect(db.users, r.user.table, r.admin.row);
    var i := Find(r.user.table, RoleName, ADMIN_ROLE).value;
    assert r.admin.row in r.user.table by { assert r.user.table[i] == r.admin.row; }
    GrantAdminHolds(db.users, r.user.table, r.admin.row);
  }

  /**
   * The user table changes exactly when `admin@test.com` exists and holds no
   * role named `admin` beforehand.
   */
  lemma AdminGrantIff(db: Db, ids: FreshIds)
    requires ValidDb(db) && Fresh(db, ids)
    ensures Seeded(db, ids).users != db.users <==>
      && Find(db.users, UserEmail, ADMIN_EMAIL).Some?
      && !HoldsRoleNamed(db.roles, db.users[Find(db.users, UserEmail, ADMIN_EMAIL).value], ADMIN_ROLE)
  {
    var p := UpsertCatalogue(db.permissions, ids);
    var r := UpsertRoles(db.roles, Granted(p), ids);
    var rs := r.user.table;
    RolePhase(db.roles, Granted(p), ids);
    GrantAdminEffect(db.users, rs, r.admin.row);
    var found := Find(db.users, UserEmail, ADMIN_EMAIL);
    if found.Some? {
      var u := db.users[found.value];
      HoldsRoleNamedGrows(db.roles, rs, u, ADMIN_ROLE);
      if !HoldsRoleNamed(db.roles, u, ADMIN_ROLE) {
        var k := Find(rs, RoleName, ADMIN_ROLE).value;
        assert rs[k] == r.admin.row;
        assert r.admin.row.id !in u.roles;
        assert Seeded(db, ids).users[found.value] != u;
      }
    }
  }

  /** The ids a role is connected to through `connect` are ids of rows of any table holding the granted rows. */
  lemma IdsNamedPresent(granted: seq<Permission>, ps: seq<Permission>, names: set<string>)
    requires forall q :: q in granted ==> q in ps
    ensures forall pid :: pid in IdsNamed(granted, names) ==> Present(ps, PermissionId, pid)
  {
    forall pid | pid in IdsNamed(granted, names)
      ensures Present(ps, PermissionId, pid)
    {
      var q :| q in granted && q.name in names && q.id == pid;
      var j :| 0 <= j < |ps| && ps[j] == q;
      assert PermissionId(ps[j]) == pid;
    }
  }

  /** The ids of the granted rows are ids of rows of any table holding them. */
  lemma IdsOfPresent(granted: seq<Permission>, ps: seq<Permission>)
    requires forall q :: q in granted ==> q in ps
    ensures forall pid :: pid in IdsOf(granted) ==> Present(ps, PermissionId, pid)
  {
    forall pid | pid in IdsOf(granted)
      ensures Present(ps, PermissionId, pid)
    {
      var q :| q in granted && q.id == pid;
      var j :| 0 <= j < |ps| && ps[j] == q;
      assert PermissionId(ps[j]) == pid;
    }
  }

  /** Roles keep pointing at existing permissions: old roles at old rows, new roles at the upserted ones. */
  lemma RoleReferencesKept(ps: seq<Permission>, rs: seq<Role>, ids: FreshIds)
    requires RolesReferTo(rs, ps)
    ensures var p := UpsertCatalogue(ps, ids);
      RolesReferTo(UpsertRoles(rs, Granted(p), ids).user.table, p.roleWrite.table)
  {
    var p := UpsertCatalogue(ps, ids);
    var g := Granted(p);
    var ps', rs' := p.roleWrite.table, UpsertRoles(rs, g, ids).user.table;
    PermissionPhase(ps, ids);
    GrantedRows(ps, ids);
    RolePhase(rs, g, ids);
    IdsOfPresent(g, ps');
    IdsNamedPresent(g, ps', {USER_READ, USER_WRITE});
    forall i, pid | 0 <= i < |rs'| && pid in rs'[i].permissions
      ensures Present(ps', PermissionId, pid)
    {
      if i < |rs| {
        assert rs'[i] == rs[i];
        PresentGrows(ps, ps', PermissionId, pid);
      }
    }
  }

  /** Users keep pointing at existing roles: their old roles, and `admin` when it is granted. */
  lemma UserReferencesKept(users: seq<User>, rs: seq<Role>, rs': seq<Role>, admin: Role)
    requires UsersReferTo(users, rs) && Grows(rs, rs') && admin in rs'
    ensures UsersReferTo(GrantAdmin(users, rs', admin), rs')
  {
    var users' := GrantAdmin(users, rs', admin);
    GrantAdminEffect(users, rs', admin);
    forall j, rid | 0 <= j < |users'| && rid in users'[j].roles
      ensures Present(rs', RoleId, rid)
    {
      if rid in users[j].roles {
        PresentGrows(rs, rs', RoleId, rid);
      } else {
        var k :| 0 <= k < |rs'| && rs'[k] == admin;
        assert RoleId(rs'[k]) == rid;
      }
    }
  }

  /** The run keeps the tables well formed. */
  lemma SeedKeepsValid(db: Db, ids: FreshIds)
    requires ValidDb(db) && Fresh(db, ids)
    ensures ValidDb(Seeded(db, ids))
  {
    var p := UpsertCatalogue(db.permissions, ids);
    var g := Granted(p);
    var r := UpsertRoles(db.roles, g, ids);
    var users' := GrantAdmin(db.users, r.user.table, r.admin.row);
    SeededIs(db, ids);
    PermissionsStayUnique(db.permissions, ids);
    RolesStayUnique(db.roles, g, ids);
    GrantAdminEffect(db.users, r.user.table, r.admin.row);
    UniqueSameKeys(db.users, users', UserEmail);
    UniqueSameKeys(db.users, users', UserId);
    RoleReferencesKept(db.permissions, db.roles, ids);
    RolePhase(db.roles, g, ids);
    var k := Find(r.user.table, RoleName, ADMIN_ROLE).value;
    assert r.admin.row in r.user.table by { assert r.user.table[k] == r.admin.row; }
    UserReferencesKept(db.users, db.roles, r.user.table, r.admin.row);
  }

  /** Running `main` a second time changes nothing, whatever ids the second run would have used. */
  lemma SeedIdempotent(db: Db, ids: FreshIds, ids': FreshIds)
    ensures Seeded(Seeded(db, ids), ids') == Seeded(db, ids)
  {
    var p := UpsertCatalogue(db.permissions, ids);
    var r := UpsertRoles(db.roles, Granted(p), ids);
    var s := Seeded(db, ids);
    var p' := UpsertCatalogue(s.permissions, ids');
    var r' := UpsertRoles(s.roles, Granted(p'), ids');
    SeededIs(db, ids);
    SeededIs(s, ids');
    PermissionsSettle(db.permissions, ids, ids');
    RolesSettle(db.roles, Granted(p), ids, Granted(p'), ids');
    RolePhase(db.roles, Granted(p), ids);
    var k := Find(s.roles, RoleName, ADMIN_ROLE).value;
    assert r.admin.row in s.roles by { assert s.roles[k] == r.admin.row; }
    GrantAdminIdempotent(db.users, s.roles, r.admin.row, r'.admin.row);
  }

  /** A second permission phase leaves the table the first one left. */
  lemma PermissionsSettle(ps: seq<Permission>, ids: FreshIds, ids': FreshIds)
    ensures var ps' := UpsertCatalogue(ps, ids).roleWrite.table;
      UpsertCatalogue(ps', ids').roleWrite.table == ps'
  {
    var ps' := UpsertCatalogue(ps, ids).roleWrite.table;
    PermissionPhase(ps, ids);
    forall n | n in CATALOGUE
      ensures Present(ps', PermissionName, n)
    {
      assert Find(ps', PermissionName, n).Some?;
    }
    CatalogueSettled(ps', ids');
  }

  /** A second role phase leaves the table the first one left and returns the same `admin` row. */
  lemma RolesSettle(rs: seq<Role>, g: seq<Permission>, ids: FreshIds, g': seq<Permission>, ids': FreshIds)
    ensures var rs' := UpsertRoles(rs, g, ids).user.table;
      && UpsertRoles(rs', g', ids').user.table == rs'
      && UpsertRoles(rs', g', ids').admin.row == UpsertRoles(rs, g, ids).admin.row
  {
    var rs' := UpsertRoles(rs, g, ids).user.table;
    RolePhase(rs, g, ids);
    UpsertStep(rs', RoleName, ADMIN_ROLE, AdminRow(g', ids'));
    UpsertStep(rs', RoleName, USER_ROLE, UserRow(g', ids'));
  }

  // ---------------------------------------------------------------------
  // The script
  // ---------------------------------------------------------------------

  /** The three tables as the Prisma client sees them. */
  class Database {
    var permissions: seq<Permission>
    var roles: seq<Role>
    var users: seq<User>

    function State(): Db
      reads this
    {
      Db(permissions, roles, users)
    }

    constructor (db: Db)
      ensures State() == db
    {
      permissions, roles, users := db.permissions, db.roles, db.users;
    }

    method UpsertPermissionRow(name: string, description: string, id: Id) returns (row: Permission)
      modifies this`permissions
      ensures Upserted(permissions, row) == UpsertPermission(old(permissions), name, description, id)
    {
      var found := Find(permissions, PermissionName, name);
      if found.Some? {
        row := permissions[found.value];
      } else {
        row := Permission(id, name, Some(description));
        permissions := permissions + [row];
      }
    }

    method UpsertRoleRow(name: string, description: string, connect: set<Id>, id: Id) returns (row: Role)
      modifies this`roles
      ensures Upserted(roles, row) == UpsertRole(old(roles), name, description, connect, id)
    {
      var found := Find(roles, RoleName, name);
      if found.Some? {
        row := roles[found.value];
      } else {
        row := Role(id, name, Some(description), connect);
        roles := roles + [row];
      }
    }

    /** `user.update({where: {id}, data: {roles: {connect: {id: roleId}}}})` on the row at index `k`. */
    method ConnectRole(k: nat, roleId: Id)
      requires k < |users|
      modifies this`users
      ensures users == old(users)[k := old(users)[k].(roles := old(users)[k].roles + {roleId})]
    {
      users := users[k := users[k].(roles := users[k].roles + {roleId})];
    }

    /** Lines 7-28: the four permission upserts, returning the rows in catalogue order. */
    method UpsertPermissions(ids: FreshIds) returns (granted: seq<Permission>)
      modifies this`permissions
      ensures var p := UpsertCatalogue(old(permissions), ids);
        permissions == p.roleWrite.table && granted == Granted(p)
    {
      var userRead := UpsertPermissionRow(USER_READ, "Read user data", ids.userRead);
      var userWrite := UpsertPermissionRow(USER_WRITE, "Create/update/delete users", ids.userWrite);
      var roleRead := UpsertPermissionRow(ROLE_READ, "Read roles and permissions", ids.roleRead);
      var roleWrite := UpsertPermissionRow(ROLE_WRITE, "Create/update/delete roles and assign to users", ids.roleWrite);
      granted := [userRead, userWrite, roleRead, roleWrite];
    }

    /** Lines 31-51: the `admin` and `user` upserts, connecting the rows of `granted`; returns the `admin` row. */
    method UpsertRolesRows(granted: seq<Permission>, ids: FreshIds) returns (adminRole: Role)
      modifies this`roles
      ensures var r := UpsertRoles(old(roles), granted, ids);
        roles == r.user.table && adminRole == r.admin.row
    {
      adminRole := UpsertRoleRow(ADMIN_ROLE, "Administrator with full access",
                                 IdsOf(granted), ids.admin);
      var _ := UpsertRoleRow(USER_ROLE, "Regular user", IdsNamed(granted, {USER_READ, USER_WRITE}), ids.user);
    }

    /** Lines 54-64: connect `admin@test.com` to `adminRole` unless it already holds a role named `admin`. */
    method GrantAdminRole(adminRole: Role)
      modifies this`users
      ensures users == GrantAdmin(old(users), roles, adminRole)
    {
      var adminUser := Find(users, UserEmail, ADMIN_EMAIL);
      if adminUser.Some? && !HoldsRoleNamed(roles, users[adminUser.value], ADMIN_ROLE) {
        ConnectRole(adminUser.value, adminRole.id);
      }
    }

    /** `main()`: `ids` are the ids the database gives the rows it creates. */
    method Seed(ids: FreshIds)
      modifies this
      ensures State() == Seeded(old(State()), ids)
    {
      SeededIs(State(), ids);
      var granted := UpsertPermissions(ids);
      var adminRole := UpsertRolesRows(granted, ids);
      GrantAdminRole(adminRole);
    }

    /** A second run leaves the tables as the first left them. */
    method SeedTwice(ids: FreshIds, ids': FreshIds)
      modifies this
      ensures State() == Seeded(old(State()), ids)
    {
      Seed(ids);
      ghost var once := State();
      Seed(ids');
      SeedIdempotent(old(State()), ids, ids');
    }
  }
}
