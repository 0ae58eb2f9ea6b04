/** The client route guard (`frontend/src/components/ProtectedRoute.jsx`):
    whether a page is rendered or the visitor is redirected, and where. */
module RouteGuard {
  import opened Common

  /** The signed-in user as the session holds it; `role` is a free string. */
  datatype SessionUser = SessionUser(role: string)

  /** The guard's answer: render the page, or navigate elsewhere. */
  datatype Decision = RenderChildren | NavigateTo(path: string)

  /** A required role is set when it is present and not empty. */
  predicate RoleRequired(requiredRole: Option<string>) {
    requiredRole.Some? && requiredRole.value != ""
  }

  /** The guard for a session (`isAuthenticated`, `user`, the selected
      `role`) and a page's `requiredRole`. */
  function Guard(isAuthenticated: bool, user: Option<SessionUser>, selectedRole: string,
                 requiredRole: Option<string>): Decision
  {
    if !isAuthenticated || user.None? then NavigateTo("/")
    else if RoleRequired(requiredRole) && user.value.role != requiredRole.value then
      NavigateTo(if user.value.role == "artist" then "/artist/dashboard" else "/buyer/marketplace")
    else RenderChildren
  }

  /** The page is rendered exactly to a signed-in user whose own role
      matches the required one, if any; a stranger goes to the landing
      page; a signed-in user with the wrong role goes to the home of that
      role, an artist's dashboard or otherwise the marketplace. The role
      selected in the session plays no part. */
  lemma GuardDecides(isAuthenticated: bool, user: Option<SessionUser>, selectedRole: string,
                     requiredRole: Option<string>, otherSelected: string)
    ensures Guard(isAuthenticated, user, selectedRole, requiredRole) == RenderChildren <==>
      isAuthenticated && user.Some? && (!RoleRequired(requiredRole) || user.value.role == requiredRole.value)
    ensures !isAuthenticated || user.None? ==> Guard(isAuthenticated, user, selectedRole, requiredRole) == NavigateTo("/")
    ensures isAuthenticated && user.Some? && RoleRequired(requiredRole) && user.value.role != requiredRole.value ==>
      Guard(isAuthenticated, user, selectedRole, requiredRole) ==
        NavigateTo(if user.value.role == "artist" then "/artist/dashboard" else "/buyer/marketplace")
    ensures Guard(isAuthenticated, user, selectedRole, requiredRole) == Guard(isAuthenticated, user, otherSelected, requiredRole)
  {
  }

  /** A redirected signed-in user never lands back on the landing page. */
  lemma WrongRoleNotSentHome(user: SessionUser, requiredRole: string)
    requires requiredRole != "" && user.role != requiredRole
    ensures Guard(true, Some(user), "", Some(requiredRole)).NavigateTo?
    ensures Guard(true, Some(user), "", Some(requiredRole)).path != "/"
  {
  }
}
