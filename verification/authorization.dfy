/** The policy decision behind every `RequirePermission` attribute: a
    request passes when the signed-in user holds the required permission
    through one of their roles. */
module PermissionAuthorization {
  import opened Wrappers
  import opened Permissions
  import opened PermissionExtensions

  /** What the handler learns about the caller: whether the principal is
      authenticated, and the roles of the user it resolves to (`None` when it
      resolves to no user, or when there is no principal at all). */
  datatype Principal = Principal(isAuthenticated: bool, resolvedRoles: Option<seq<string>>)

  /** The handler ends every evaluation by calling exactly one of these. */
  datatype Decision = Succeed | Fail

  /** HandleRequirementAsync: unauthenticated or unresolved principals fail;
      otherwise the roles are scanned and the first listing the permission
      makes the requirement succeed. */
  method HandleRequirement(principal: Principal, permission: string) returns (d: Decision)
    ensures d == Succeed <==>
      principal.isAuthenticated && principal.resolvedRoles.Some? &&
      Granted(principal.resolvedRoles.value, permission)
    ensures !principal.isAuthenticated ==> d == Fail
    ensures principal.resolvedRoles.None? ==> d == Fail
  {
    if !principal.isAuthenticated {
      return Fail;
    }
    if principal.resolvedRoles.None? {
      return Fail;
    }
    var roles := principal.resolvedRoles.value;
    var hasPermission := false;
    var i := 0;
    while i < |roles|
      invariant 0 <= i <= |roles|
      invariant !hasPermission
      invariant forall j :: 0 <= j < i ==> permission !in GetPermissionsForRole(roles[j])
      decreases |roles| - i
    {
      if permission in GetPermissionsForRole(roles[i]) {
        hasPermission := true;
        break;
      }
      i := i + 1;
    }
    if hasPermission {
      d := Succeed;
    } else {
      d := Fail;
    }
  }
}
