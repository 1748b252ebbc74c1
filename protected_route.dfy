/** The redirect decision of src/components/ProtectedRoute.tsx. The signed-in state and
    the user's role and permission tests come from the authentication context and are
    parameters here. */
module ProtectedRoute {
  import opened Wrappers

  /** What the route renders: its children, or a redirect. */
  datatype View = Children | Redirect(to: string)

  /** `requiredPermissions.every(hasPermission)`, stopping at the first one missing. */
  function Every(perms: seq<string>, hasPermission: string -> bool): (r: bool)
    ensures r <==> forall i :: 0 <= i < |perms| ==> hasPermission(perms[i])
  {
    if perms == [] then true
    else hasPermission(perms[0]) && Every(perms[1..], hasPermission)
  }

  /** A required role is checked only when it is given and not empty. */
  predicate RoleHeld(requiredRole: Option<string>, hasRole: string -> bool) {
    requiredRole.None? || requiredRole.value == "" || hasRole(requiredRole.value)
  }

  /** The three checks in order: signed in, else `/login`; the required role, else
      `/dashboard`; every required permission, else `/dashboard`. */
  function Decide(isAuthenticated: bool, requiredRole: Option<string>, requiredPermissions: seq<string>,
                  hasRole: string -> bool, hasPermission: string -> bool): (v: View)
    ensures v == Redirect("/login") <==> !isAuthenticated
    ensures v == Children <==>
      isAuthenticated && RoleHeld(requiredRole, hasRole)
      && forall i :: 0 <= i < |requiredPermissions| ==> hasPermission(requiredPermissions[i])
    ensures v.Redirect? ==> v.to == "/login" || v.to == "/dashboard"
  {
    if !isAuthenticated then Redirect("/login")
    else if requiredRole.Some? && requiredRole.value != "" && !hasRole(requiredRole.value) then Redirect("/dashboard")
    else if |requiredPermissions| > 0 && !Every(requiredPermissions, hasPermission) then Redirect("/dashboard")
    else Children
  }

  /** Without required permissions the permission test is never consulted. */
  lemma EmptyPermissionsNoCheck(isAuthenticated: bool, requiredRole: Option<string>, hasRole: string -> bool,
                                hasPermission: string -> bool, other: string -> bool)
    ensures Decide(isAuthenticated, requiredRole, [], hasRole, hasPermission)
         == Decide(isAuthenticated, requiredRole, [], hasRole, other)
  {
  }

  /** Requiring fewer permissions never turns a rendered route into a redirect. */
  lemma FewerPermissionsStillRender(isAuthenticated: bool, requiredRole: Option<string>, perms: seq<string>,
                                    fewer: seq<string>, hasRole: string -> bool, hasPermission: string -> bool)
    requires forall i :: 0 <= i < |fewer| ==> fewer[i] in perms
    requires Decide(isAuthenticated, requiredRole, perms, hasRole, hasPermission) == Children
    ensures Decide(isAuthenticated, requiredRole, fewer, hasRole, hasPermission) == Children
  {
    forall i | 0 <= i < |fewer| ensures hasPermission(fewer[i]) {
      var j :| 0 <= j < |perms| && perms[j] == fewer[i];
    }
  }

  /** A signed-in user turned away is always sent to the dashboard, never to the login. */
  lemma SignedInNeverToLogin(requiredRole: Option<string>, perms: seq<string>, hasRole: string -> bool, hasPermission: string -> bool)
    ensures Decide(true, requiredRole, perms, hasRole, hasPermission) != Children ==>
      Decide(true, requiredRole, perms, hasRole, hasPermission) == Redirect("/dashboard")
  {
  }
}
