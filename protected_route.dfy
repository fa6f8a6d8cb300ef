/**
 * The access decision of `ProtectedRoute` (components/auth/protected-route.tsx):
 * the redirect its effect issues and whether it renders its children, from the
 * auth state (`loading`, whether a user is signed in, the role) and the roles
 * the route admits. A role counts only when it is truthy: a missing role and
 * the empty role are both let through.
 */
module ProtectedRoute {
  import opened ChatTypes

  const LoginPath: string := "/login"
  const HomePath: string := "/"

  /** `role && !allowedRoles.includes(role)` */
  predicate WrongRole(role: Option<string>, allowedRoles: seq<string>) {
    role.Some? && role.value != [] && role.value !in allowedRoles
  }

  /** The `router.push` the effect issues, if any. */
  function Redirect(loading: bool, hasUser: bool, role: Option<string>, allowedRoles: seq<string>): Option<string> {
    if loading then None
    else if !hasUser then Some(LoginPath)
    else if WrongRole(role, allowedRoles) then Some(HomePath)
    else None
  }

  /** Whether the children render; otherwise the spinner does. */
  predicate RendersChildren(loading: bool, hasUser: bool, role: Option<string>, allowedRoles: seq<string>) {
    !(loading || !hasUser || WrongRole(role, allowedRoles))
  }

  /**
   * The decision by case: while loading, neither a redirect nor the children;
   * signed out, to the login page; a wrong role, home; otherwise the children.
   */
  lemma DecisionCases(loading: bool, hasUser: bool, role: Option<string>, allowedRoles: seq<string>)
    ensures loading ==> Redirect(loading, hasUser, role, allowedRoles).None? && !RendersChildren(loading, hasUser, role, allowedRoles)
    ensures !loading && !hasUser ==>
              Redirect(loading, hasUser, role, allowedRoles) == Some(LoginPath) && !RendersChildren(loading, hasUser, role, allowedRoles)
    ensures !loading && hasUser && role.Some? && role.value != [] && role.value !in allowedRoles ==>
              Redirect(loading, hasUser, role, allowedRoles) == Some(HomePath) && !RendersChildren(loading, hasUser, role, allowedRoles)
    ensures RendersChildren(loading, hasUser, role, allowedRoles) <==>
              !loading && hasUser && (role.None? || role.value == [] || role.value in allowedRoles)
  {
  }

  /**
   * The effect and the render agree: once loading is over, the page either
   * redirects or shows the children, never both and never neither.
   */
  lemma EffectAgreesWithRender(loading: bool, hasUser: bool, role: Option<string>, allowedRoles: seq<string>)
    ensures !loading ==> (Redirect(loading, hasUser, role, allowedRoles).Some? <==> !RendersChildren(loading, hasUser, role, allowedRoles))
    ensures RendersChildren(loading, hasUser, role, allowedRoles) ==> Redirect(loading, hasUser, role, allowedRoles).None?
  {
  }

  /** A signed-in user whose role is admitted always gets the children once loading is over. */
  lemma AdmittedRoleRenders(hasUser: bool, role: string, allowedRoles: seq<string>)
    requires hasUser && role in allowedRoles
    ensures RendersChildren(false, hasUser, Some(role), allowedRoles)
    ensures Redirect(false, hasUser, Some(role), allowedRoles).None?
  {
  }

  /** Admitting more roles never shuts anyone out. */
  lemma MoreRolesAdmitMore(loading: bool, hasUser: bool, role: Option<string>, allowedRoles: seq<string>, more: seq<string>)
    requires RendersChildren(loading, hasUser, role, allowedRoles)
    ensures RendersChildren(loading, hasUser, role, allowedRoles + more)
  {
  }
}
