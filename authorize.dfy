/** The authorization gates of src/middleware/authorize.ts: `requireRole(...roles)` and
    `requirePermission(permission)`, decided over the authenticated principal. */
module Authorize {
  import opened Wrappers
  import Text
  import opened Accounts

  /** `req.user` as the gates see it: the user and its populated role, None when the
      role reference resolves to nothing (the role then has no name and no permissions). */
  datatype Principal = Principal(user: User, role: Option<Role>)

  /** What a gate does: call `next`, or answer with an error. */
  datatype Decision = Allow | Deny(error: HttpError)

  const AuthenticationRequired := HttpError(401, "Authentication required.")
  const InsufficientPermissions := HttpError(403, "Insufficient permissions.")

  /** `roles.map(role => role.toLowerCase())`. */
  function LowerAll(names: seq<string>): (r: seq<string>)
    ensures |r| == |names|
    ensures forall i :: 0 <= i < |names| ==> r[i] == Text.Lower(names[i])
  {
    if names == [] then [] else [Text.Lower(names[0])] + LowerAll(names[1..])
  }

  /** The principal holds a role whose lower-cased name is one of the lower-cased names. */
  predicate HasRoleAmong(p: Principal, roles: seq<string>) {
    p.role.Some? && exists i :: 0 <= i < |roles| && Text.Lower(roles[i]) == Text.Lower(p.role.value.name)
  }

  /** `requireRole(...roles)`: 401 without a user, otherwise allow iff the lower-cased role
      name is among the lower-cased allowed names, else 403. */
  function RequireRole(user: Option<Principal>, roles: seq<string>): (r: Decision)
    ensures user.None? ==> r == Deny(AuthenticationRequired)
    ensures user.Some? ==> (r == Allow <==> HasRoleAmong(user.value, roles))
    ensures user.Some? && r != Allow ==> r == Deny(InsufficientPermissions)
  {
    if user.None? then Deny(AuthenticationRequired)
    else if user.value.role.Some? && Text.Lower(user.value.role.value.name) in LowerAll(roles) then
      Allow
    else
      Deny(InsufficientPermissions)
  }

  /** The principal's role lists a permission of exactly this name. */
  predicate HasPermission(p: Principal, permission: string) {
    p.role.Some? && permission in p.role.value.permissions
  }

  /** `requirePermission(permission)`: 401 without a user, otherwise allow iff some
      permission of the role has exactly this name or the role is named exactly `admin`. */
  function RequirePermission(user: Option<Principal>, permission: string): (r: Decision)
    ensures user.None? ==> r == Deny(AuthenticationRequired)
    ensures user.Some? ==> (r == Allow <==>
      HasPermission(user.value, permission) || (user.value.role.Some? && user.value.role.value.name == "admin"))
    ensures user.Some? && r != Allow ==> r == Deny(InsufficientPermissions)
  {
    if user.None? then Deny(AuthenticationRequired)
    else
      var perms := if user.value.role.Some? then user.value.role.value.permissions else [];
      if permission in perms || (user.value.role.Some? && user.value.role.value.name == "admin") then Allow
      else Deny(InsufficientPermissions)
  }

  /** A principal whose role reference resolves to nothing is refused by every role gate. */
  lemma NoRoleDenied(u: User, roles: seq<string>)
    ensures RequireRole(Some(Principal(u, None)), roles) == Deny(InsufficientPermissions)
  {
  }

  /** `requireRole` ignores case on both sides: listing the allowed names lower-cased
      decides the same way. */
  lemma RequireRoleIgnoresCase(user: Option<Principal>, roles: seq<string>)
    ensures RequireRole(user, LowerAll(roles)) == RequireRole(user, roles)
  {
    if user.Some? && user.value.role.Some? {
      var name := Text.Lower(user.value.role.value.name);
      if HasRoleAmong(user.value, roles) {
        var i :| 0 <= i < |roles| && Text.Lower(roles[i]) == name;
        Text.LowerFixpoint(roles[i]);
        assert Text.Lower(LowerAll(roles)[i]) == name;
      }
      if HasRoleAmong(user.value, LowerAll(roles)) {
        var i :| 0 <= i < |roles| && Text.Lower(LowerAll(roles)[i]) == name;
        Text.LowerFixpoint(roles[i]);
        assert Text.Lower(roles[i]) == name;
      }
    }
  }

  /** Allowing one more role name never turns an allow into a deny. */
  lemma RequireRoleMonotone(user: Option<Principal>, roles: seq<string>, extra: string)
    requires RequireRole(user, roles) == Allow
    ensures RequireRole(user, roles + [extra]) == Allow
  {
    var i :| 0 <= i < |roles| && Text.Lower(roles[i]) == Text.Lower(user.value.role.value.name);
    assert (roles + [extra])[i] == roles[i];
  }

  /** Granting the role one more permission never turns an allow into a deny. */
  lemma RequirePermissionMonotone(u: User, role: Role, extra: string, permission: string)
    requires RequirePermission(Some(Principal(u, Some(role))), permission) == Allow
    ensures RequirePermission(Some(Principal(u, Some(role.(permissions := role.permissions + [extra])))), permission) == Allow
  {
  }

  /** The admin bypass of `requirePermission` is case-sensitive while `requireRole` is not:
      a role named `Admin` without permissions passes `requireRole('admin')` and is refused
      every permission. */
  lemma AdminBypassIsCaseSensitive(u: User, role: Role, permission: string)
    requires role.name == "Admin" && role.permissions == []
    ensures RequireRole(Some(Principal(u, Some(role))), ["admin"]) == Allow
    ensures RequirePermission(Some(Principal(u, Some(role))), permission) == Deny(InsufficientPermissions)
  {
    assert Text.Lower("Admin") == "admin";
    assert Text.Lower("admin") == "admin";
  }

  /** A role named exactly `admin` passes every permission gate, whatever it lists. */
  lemma AdminPassesEveryPermission(u: User, role: Role, permission: string)
    requires role.name == "admin"
    ensures RequirePermission(Some(Principal(u, Some(role))), permission) == Allow
  {
  }
}
