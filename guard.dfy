/**
 * The authorization decision of `PermissionsGuard.canActivate`: given the
 * permission names an endpoint declares, the identity the JWT strategy put on
 * the request, and each user's roles as loaded with their permissions, decide
 * whether the request proceeds or is refused with a 403.
 */
module PermissionsGuard {
  import opened Wrappers

  /** `request.user` as the JWT strategy populates it; every field is optional. */
  datatype RequestUser = RequestUser(sub: Option<string>, email: Option<string>, userId: Option<string>)

  /** A role as `findUnique(... include: { roles: { include: { permissions: true } } })` returns it, reduced to names. */
  datatype LoadedRole = LoadedRole(name: string, permissions: seq<string>)

  /** Every user id the database knows, with that user's roles. */
  type Store = map<string, seq<LoadedRole>>

  /** Allow, or one of the three `ForbiddenException`s. */
  datatype Outcome = Allow | DenyNoIdentity | DenyUserNotFound | DenyInsufficient

  const NO_IDENTITY_MESSAGE: string := "User not found in request"
  const USER_NOT_FOUND_MESSAGE: string := "User not found"
  const INSUFFICIENT_MESSAGE: string := "Insufficient permissions"

  /** The elements of a list, as a set. */
  function Elements(s: seq<string>): set<string>
  {
    set x | x in s
  }

  /** Only the empty list has no elements. */
  lemma ElementsEmpty(s: seq<string>)
    ensures Elements(s) == {} <==> |s| == 0
  {
    if |s| > 0 {
      assert s[0] in Elements(s);
    }
  }

  /** `user?.userId ?? user?.sub`: `??` falls back only when `userId` is absent, not when it is empty. */
  function Subject(user: Option<RequestUser>): Option<string>
  {
    match user
    case None => None
    case Some(u) => if u.userId.Some? then u.userId else u.sub
  }

  /** `new Set(roles.flatMap(role => role.permissions.map(p => p.name)))`. */
  function Effective(roles: seq<LoadedRole>): set<string>
  {
    if |roles| == 0 then {} else Elements(roles[0].permissions) + Effective(roles[1..])
  }

  /** `required.every(perm => granted.has(perm))`. */
  function Every(required: seq<string>, granted: set<string>): bool
  {
    |required| == 0 || (required[0] in granted && Every(required[1..], granted))
  }

  /** The decision of `canActivate`; `required` is None when the endpoint declares nothing. */
  function CanActivate(required: Option<seq<string>>, user: Option<RequestUser>, store: Store): Outcome
  {
    if required.None? || |required.value| == 0 then Allow
    else match Subject(user)
      case None => DenyNoIdentity
      case Some(id) =>
        if id == "" then DenyNoIdentity
        else if id !in store then DenyUserNotFound
        else if Every(required.value, Effective(store[id])) then Allow
        else DenyInsufficient
  }

  /** The message of the `ForbiddenException` a denial throws. */
  function Message(o: Outcome): (m: string)
    requires o != Allow
    ensures m in {NO_IDENTITY_MESSAGE, USER_NOT_FOUND_MESSAGE, INSUFFICIENT_MESSAGE}
  {
    match o
    case DenyNoIdentity => NO_IDENTITY_MESSAGE
    case DenyUserNotFound => USER_NOT_FOUND_MESSAGE
    case DenyInsufficient => INSUFFICIENT_MESSAGE
  }

  /** What `canActivate` hands back to the framework: `true`, or a 403 with its message. */
  function Response(o: Outcome): (r: Result<bool, string>)
    ensures r.Ok? <==> o == Allow
    ensures r.Ok? ==> r.value
    ensures r.Err? ==> r.error == Message(o)
  {
    if o == Allow then Ok(true) else Err(Message(o))
  }

  // ---------------------------------------------------------------------
  // Reference definitions, stated on the loaded roles directly
  // ---------------------------------------------------------------------

  /** Some role of the user carries the permission `name`. */
  ghost predicate Grants(roles: seq<LoadedRole>, name: string)
  {
    exists i :: 0 <= i < |roles| && name in roles[i].permissions
  }

  /** The subject the guard identifies the caller by, when it is usable. */
  ghost predicate Identified(user: Option<RequestUser>)
  {
    Subject(user).Some? && Subject(user).value != ""
  }

  /** The access rule: nothing is required, or a known caller's roles grant every required name. */
  ghost predicate Authorized(required: Option<seq<string>>, user: Option<RequestUser>, store: Store)
  {
    || required.None?
    || |required.value| == 0
    || (&& Identified(user)
        && Subject(user).value in store
        && forall k :: 0 <= k < |required.value| ==> Grants(store[Subject(user).value], required.value[k]))
  }

  // ---------------------------------------------------------------------
  // Properties
  // ---------------------------------------------------------------------

  /** The effective permission set is exactly the union over the user's roles, with nothing implicit. */
  lemma {:induction false} EffectiveIsUnion(roles: seq<LoadedRole>, name: string)
    ensures name in Effective(roles) <==> Grants(roles, name)
  {
    if |roles| > 0 {
      EffectiveIsUnion(roles[1..], name);
      if Grants(roles[1..], name) {
        var i :| 0 <= i < |roles[1..]| && name in roles[1..][i].permissions;
        assert name in roles[i + 1].permissions;
      }
      if name in roles[0].permissions {
        assert Grants(roles, name) by { assert 0 < |roles|; }
      }
      if Grants(roles, name) {
        var i :| 0 <= i < |roles| && name in roles[i].permissions;
        if i > 0 {
          assert name in roles[1..][i - 1].permissions;
        }
      }
    }
  }

  /** `every` holds exactly when each listed name is in the set. */
  lemma {:induction false} EveryIffAll(required: seq<string>, granted: set<string>)
    ensures Every(required, granted) <==> forall k :: 0 <= k < |required| ==> required[k] in granted
  {
    if |required| > 0 {
      EveryIffAll(required[1..], granted);
      assert forall k :: 1 <= k < |required| ==> required[k] == required[1..][k - 1];
    }
  }

  /** `every` depends only on which names are listed, not on their order or repetition. */
  lemma EveryIffSubset(required: seq<string>, granted: set<string>)
    ensures Every(required, granted) <==> Elements(required) <= granted
  {
    EveryIffAll(required, granted);
  }

  /** The guard allows exactly the requests the access rule authorizes. */
  lemma AllowIffAuthorized(required: Option<seq<string>>, user: Option<RequestUser>, store: Store)
    ensures CanActivate(required, user, store) == Allow <==> Authorized(required, user, store)
  {
    if required.Some? && |required.value| > 0 && Identified(user) && Subject(user).value in store {
      var roles := store[Subject(user).value];
      EveryIffAll(required.value, Effective(roles));
      forall k | 0 <= k < |required.value|
        ensures required.value[k] in Effective(roles) <==> Grants(roles, required.value[k])
      {
        EffectiveIsUnion(roles, required.value[k]);
      }
    }
  }

  /** An absent or empty requirement allows, whoever the caller is and whatever the store holds. */
  lemma EmptyRequirementAllows(required: Option<seq<string>>, user: Option<RequestUser>, store: Store)
    requires required.None? || required.value == []
    ensures CanActivate(required, user, store) == Allow
  {
  }

  /**
   * With a non-empty requirement, which denial is raised: no usable subject is checked
   * before the store is consulted, and an unknown subject before the roles are.
   */
  lemma DenialReasons(required: seq<string>, user: Option<RequestUser>, store: Store)
    requires |required| > 0
    ensures CanActivate(Some(required), user, store) == DenyNoIdentity <==> !Identified(user)
    ensures CanActivate(Some(required), user, store) == DenyUserNotFound <==>
      Identified(user) && Subject(user).value !in store
    ensures CanActivate(Some(required), user, store) == DenyInsufficient <==>
      Identified(user) && Subject(user).value in store && !Authorized(Some(required), user, store)
  {
    AllowIffAuthorized(Some(required), user, store);
  }

  /** A user whose subject resolves but who holds no role is refused every non-empty requirement. */
  lemma NoRolesDenied(required: seq<string>, user: Option<RequestUser>, store: Store)
    requires |required| > 0 && Identified(user) && Subject(user).value in store
    requires store[Subject(user).value] == []
    ensures CanActivate(Some(required), user, store) == DenyInsufficient
  {
  }

  /** Reordering or repeating the required names does not change the decision. */
  lemma OrderAndDuplicatesIrrelevant(a: seq<string>, b: seq<string>, user: Option<RequestUser>, store: Store)
    requires Elements(a) == Elements(b)
    ensures CanActivate(Some(a), user, store) == CanActivate(Some(b), user, store)
  {
    ElementsEmpty(a);
    ElementsEmpty(b);
    if |a| > 0 {
      var id := Subject(user);
      if id.Some? && id.value in store {
        EveryIffSubset(a, Effective(store[id.value]));
        EveryIffSubset(b, Effective(store[id.value]));
      }
    }
  }

  /** Dropping required names never turns an allow into a deny. */
  lemma FewerRequiredKeepsAllow(required: seq<string>, fewer: seq<string>, user: Option<RequestUser>, store: Store)
    requires Elements(fewer) <= Elements(required)
    requires CanActivate(Some(required), user, store) == Allow
    ensures CanActivate(Some(fewer), user, store) == Allow
  {
    if |fewer| > 0 {
      assert fewer[0] in Elements(required);
      var id := Subject(user).value;
      EveryIffSubset(required, Effective(store[id]));
      EveryIffSubset(fewer, Effective(store[id]));
    }
  }

  /** Inserting `role` at `pos` in a user's role list. */
  function WithRole(store: Store, id: string, pos: nat, role: LoadedRole): Store
    requires id in store && pos <= |store[id]|
  {
    store[id := store[id][..pos] + [role] + store[id][pos..]]
  }

  /** Granting a user one more role never turns an allow into a deny. */
  lemma AddingRoleKeepsAllow(required: Option<seq<string>>, user: Option<RequestUser>, store: Store,
                             id: string, pos: nat, role: LoadedRole)
    requires id in store && pos <= |store[id]|
    requires CanActivate(required, user, store) == Allow
    ensures CanActivate(required, user, WithRole(store, id, pos, role)) == Allow
  {
    var store' := WithRole(store, id, pos, role);
    AllowIffAuthorized(required, user, store);
    AllowIffAuthorized(required, user, store');
    if required.Some? && |required.value| > 0 && Subject(user).value == id {
      var roles, roles' := store[id], store'[id];
      forall k | 0 <= k < |required.value|
        ensures Grants(roles', required.value[k])
      {
        var i :| 0 <= i < |roles| && required.value[k] in roles[i].permissions;
        if i < pos {
          assert roles'[i] == roles[i];
        } else {
          assert roles'[i + 1] == roles[i];
        }
      }
    }
  }

  /** Role `i` of user `id` with one more permission name. */
  function WithPermission(store: Store, id: string, i: nat, name: string): Store
    requires id in store && i < |store[id]|
  {
    var r := store[id][i];
    store[id := store[id][i := r.(permissions := r.permissions + [name])]]
  }

  /** Adding a permission to one of a user's roles never turns an allow into a deny. */
  lemma AddingPermissionKeepsAllow(required: Option<seq<string>>, user: Option<RequestUser>, store: Store,
                                   id: string, i: nat, name: string)
    requires id in store && i < |store[id]|
    requires CanActivate(required, user, store) == Allow
    ensures CanActivate(required, user, WithPermission(store, id, i, name)) == Allow
  {
    var store' := WithPermission(store, id, i, name);
    AllowIffAuthorized(required, user, store);
    AllowIffAuthorized(required, user, store');
    if required.Some? && |required.value| > 0 && Subject(user).value == id {
      var roles, roles' := store[id], store'[id];
      forall k | 0 <= k < |required.value|
        ensures Grants(roles', required.value[k])
      {
        var j :| 0 <= j < |roles| && required.value[k] in roles[j].permissions;
        assert required.value[k] in roles'[j].permissions;
      }
    }
  }

  /** The guard never answers `false`: it allows with `true` or throws. */
  lemma NeverFalse(required: Option<seq<string>>, user: Option<RequestUser>, store: Store)
    ensures var r := Response(CanActivate(required, user, store));
      (r.Ok? && r.value) || (r.Err? && r.error in {NO_IDENTITY_MESSAGE, USER_NOT_FOUND_MESSAGE, INSUFFICIENT_MESSAGE})
  {
  }

  /** The requirement `@RequiredPermissions('role:read')` puts on the roles endpoints. */
  const ROLES_ENDPOINT: seq<string> := ["role:read"]

  /**
   * A caller holding only the `user` role (user:read, user:write) is refused
   * `role:write` and the roles endpoints, and allowed `user:read`.
   */
  lemma UserRoleScenario()
    ensures var store := map["u1" := [LoadedRole("user", ["user:read", "user:write"])]];
      var caller := Some(RequestUser(Some("u1"), Some("a@test.com"), None));
      && CanActivate(Some(["role:write"]), caller, store) == DenyInsufficient
      && CanActivate(Some(ROLES_ENDPOINT), caller, store) == DenyInsufficient
      && CanActivate(Some(["user:read"]), caller, store) == Allow
  {
    var roles := [LoadedRole("user", ["user:read", "user:write"])];
    assert roles[1..] == [];
    assert Effective(roles) == {"user:read", "user:write"};
    assert "role:write" != "user:read" && "role:write" != "user:write";
    assert "role:read" != "user:read" && "role:read" != "user:write";
    assert !Every(["role:write"], Effective(roles));
    assert !Every(ROLES_ENDPOINT, Effective(roles));
    assert Every(["user:read"], Effective(roles));
  }
}
