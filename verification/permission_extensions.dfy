/** Permission queries over a user's roles. The identity store that lists
    a user's roles, and resolves a signed-in principal to a user, is not part
    of this model: the roles arrive as a parameter, and a principal that
    resolves to no user is `None`. */
module PermissionExtensions {
  import opened Wrappers
  import opened Permissions

  /** The reference meaning of "the user holds the permission": some role
      of the user lists it. */
  predicate Granted(roles: seq<string>, permission: string) {
    exists i :: 0 <= i < |roles| && permission in GetPermissionsForRole(roles[i])
  }

  /** The permissions reachable through the roles, as a set. */
  function RoleUnion(roles: seq<string>): set<string> {
    if |roles| == 0 then {}
    else
      var list := GetPermissionsForRole(roles[|roles| - 1]);
      RoleUnion(roles[..|roles| - 1]) + set k | 0 <= k < |list| :: list[k]
  }

  predicate NoDuplicates<T(==)>(s: seq<T>) {
    forall i, j :: 0 <= i < j < |s| ==> s[i] != s[j]
  }

  /** HasPermissionAsync for a user: the roles are scanned in order and the
      first one listing the permission answers true. */
  method HasPermission(roles: seq<string>, permission: string) returns (granted: bool)
    ensures granted <==> Granted(roles, permission)
  {
    for i := 0 to |roles|
      invariant forall j :: 0 <= j < i ==> permission !in GetPermissionsForRole(roles[j])
    {
      if permission in GetPermissionsForRole(roles[i]) {
        return true;
      }
    }
    return false;
  }

  /** HasPermissionAsync for a principal: false when the principal resolves
      to no user, otherwise the answer for that user's roles. */
  method HasPermissionForPrincipal(user: Option<seq<string>>, permission: string) returns (granted: bool)
    ensures granted <==> user.Some? && Granted(user.value, permission)
    ensures user.None? ==> !granted
  {
    if user.None? {
      return false;
    }
    granted := HasPermission(user.value, permission);
  }

  /** GetUserPermissionsAsync: the union of the roles' lists, each
      permission once, in first-seen order. */
  method GetUserPermissions(roles: seq<string>) returns (permissions: seq<string>)
    ensures NoDuplicates(permissions)
    ensures forall p :: p in permissions <==> Granted(roles, p)
  {
    permissions := [];
    for i := 0 to |roles|
      invariant NoDuplicates(permissions)
      invariant forall p :: p in permissions <==> Granted(roles[..i], p)
    {
      var list := GetPermissionsForRole(roles[i]);
      permissions := AddAll(permissions, list);
      forall p
        ensures Granted(roles[..i + 1], p) <==> Granted(roles[..i], p) || p in list
      {
        GrantedSplit(roles[..i + 1], p);
        assert roles[..i + 1][..i] == roles[..i];
      }
    }
    assert roles[..|roles|] == roles;
  }

  /** Adds each element of `list` not yet present, as a set insertion does:
      the result holds exactly the old elements and the list's, each once. */
  method AddAll(permissions: seq<string>, list: seq<string>) returns (r: seq<string>)
    requires NoDuplicates(permissions)
    ensures NoDuplicates(r)
    ensures forall p :: p in r <==> p in permissions || p in list
  {
    r := permissions;
    for k := 0 to |list|
      invariant NoDuplicates(r)
      invariant forall p :: p in r <==> p in permissions || p in list[..k]
    {
      if list[k] !in r {
        r := r + [list[k]];
      }
      assert list[..k + 1] == list[..k] + [list[k]];
    }
    assert list[..|list|] == list;
  }

  /** Holding a permission is membership in the union of the role lists. */
  lemma {:induction false} GrantedIffInUnion(roles: seq<string>, permission: string)
    ensures Granted(roles, permission) <==> permission in RoleUnion(roles)
  {
    if |roles| > 0 {
      var init := roles[..|roles| - 1];
      var list := GetPermissionsForRole(roles[|roles| - 1]);
      GrantedIffInUnion(init, permission);
      ListSet(list, permission);
      assert RoleUnion(roles) == RoleUnion(init) + set k | 0 <= k < |list| :: list[k];
      GrantedSplit(roles, permission);
    }
  }

  lemma ListSet(list: seq<string>, p: string)
    ensures p in (set k | 0 <= k < |list| :: list[k]) <==> p in list
  {
    if p in list {
      var k :| 0 <= k < |list| && list[k] == p;
    }
  }

  /** A grant by one of the earlier roles survives appending a role. */
  lemma GrantedByInit(roles: seq<string>, permission: string)
    requires |roles| > 0 && Granted(roles[..|roles| - 1], permission)
    ensures Granted(roles, permission)
  {
    var init := roles[..|roles| - 1];
    var i :| 0 <= i < |init| && permission in GetPermissionsForRole(init[i]);
    assert roles[i] == init[i];
  }

  /** A grant of the whole list comes from an earlier role or the last. */
  lemma GrantedByPart(roles: seq<string>, permission: string)
    requires |roles| > 0 && Granted(roles, permission)
    ensures Granted(roles[..|roles| - 1], permission) || permission in GetPermissionsForRole(roles[|roles| - 1])
  {
    var init := roles[..|roles| - 1];
    var i :| 0 <= i < |roles| && permission in GetPermissionsForRole(roles[i]);
    if i < |init| {
      assert init[i] == roles[i];
      assert permission in GetPermissionsForRole(init[i]);
    } else {
      assert i == |roles| - 1;
    }
  }

  /** Splitting the role list into its last role and the ones before it. */
  lemma GrantedSplit(roles: seq<string>, permission: string)
    requires |roles| > 0
    ensures Granted(roles, permission) <==>
      Granted(roles[..|roles| - 1], permission) || permission in GetPermissionsForRole(roles[|roles| - 1])
  {
    if Granted(roles, permission) {
      GrantedByPart(roles, permission);
    }
    if Granted(roles[..|roles| - 1], permission) {
      GrantedByInit(roles, permission);
    }
    if permission in GetPermissionsForRole(roles[|roles| - 1]) {
      var last := |roles| - 1;
      assert permission in GetPermissionsForRole(roles[last]);
    }
  }

  /** Giving a user one more role, anywhere in the role list, never takes a
      permission away. */
  lemma AddingRoleKeepsGrants(roles: seq<string>, k: nat, role: string, permission: string)
    requires k <= |roles|
    requires Granted(roles, permission)
    ensures Granted(roles[..k] + [role] + roles[k..], permission)
  {
    var i :| 0 <= i < |roles| && permission in GetPermissionsForRole(roles[i]);
    var extended := roles[..k] + [role] + roles[k..];
    if i < k {
      assert extended[i] == roles[i];
      assert permission in GetPermissionsForRole(extended[i]);
    } else {
      assert extended[i + 1] == roles[i];
      assert permission in GetPermissionsForRole(extended[i + 1]);
    }
  }

  /** A user without roles holds no permission. */
  lemma NoRolesNoPermission(permission: string)
    ensures !Granted([], permission)
  {
  }
}
