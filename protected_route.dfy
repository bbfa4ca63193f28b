/** The route guard wrapped around every signed-in page. */
module ProtectedRoute {
  import opened Wrappers
  import opened Roles

  /** What the guard renders: the loading spinner, a redirect, or the protected page. */
  datatype View = Spinner | Redirect(to: string) | Children

  /**
   * `ProtectedRoute({ children, roles })`. `roles` is `None` when the prop is absent; a
   * given list, even an empty one, is truthy and is checked.
   */
  function Guard(loading: bool, user: Option<User>, roles: Option<seq<Role>>): (v: View)
    ensures loading ==> v == Spinner
    ensures !loading && user.None? ==> v == Redirect("/login")
    ensures v == Children <==> !loading && user.Some? && (roles.None? || user.value.role in roles.value)
    ensures v == Redirect("/") <==> !loading && user.Some? && roles.Some? && user.value.role !in roles.value
  {
    if loading then Spinner
    else if user.None? then Redirect("/login")
    else if roles.Some? && user.value.role !in roles.value then Redirect("/")
    else Children
  }

  /** The users page, guarded with `roles={['Owner']}`, opens for owners only; everyone else signed in goes home. */
  lemma UsersRouteOwnerOnly(user: Option<User>)
    requires user.Some?
    ensures Guard(false, user, Some([Owner])) == Children <==> IsOwner(user)
    ensures !IsOwner(user) ==> Guard(false, user, Some([Owner])) == Redirect("/")
  {
  }

  /** A route with no `roles` prop admits every signed-in user. */
  lemma NoRolesAdmitsAnyUser(user: Option<User>)
    requires user.Some?
    ensures Guard(false, user, None) == Children
  {
  }

  /** Adding roles to the list never locks out a user it admitted. */
  lemma MoreRolesAdmitMore(user: Option<User>, roles: seq<Role>, more: seq<Role>)
    requires Guard(false, user, Some(roles)) == Children
    ensures Guard(false, user, Some(roles + more)) == Children
  {
  }
}
