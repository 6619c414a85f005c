/**
 * The client's route guard: while the session is being restored it shows a
 * placeholder, an anonymous visitor is sent to the login page, a user whose
 * role is not among the route's roles is sent to the dashboard, and anyone
 * else sees the nested route.
 */
module PrivateRoute {
  import opened Common

  datatype View = Loading | RedirectLogin | RedirectDashboard | Outlet

  /** `roles` is `None` when the route has no roles list; a present list,
      even an empty one, restricts the route. */
  function Guard(loading: bool, user: Option<Actor>, roles: Option<seq<Role>>): (v: View)
    ensures loading ==> v == Loading
    ensures !loading && user.None? ==> v == RedirectLogin
    ensures !loading && user.Some? && roles.Some? && user.value.role !in roles.value
            ==> v == RedirectDashboard
    ensures v == Outlet <==> !loading && user.Some? && (roles.None? || user.value.role in roles.value)
  {
    if loading then Loading
    else if user.None? then RedirectLogin
    else if roles.Some? && user.value.role !in roles.value then RedirectDashboard
    else Outlet
  }

  /** The roles list of the manager-only routes (the team list and the new
      task form). */
  const ManagerOnly: seq<Role> := [Manager]

  /** On a manager-only route, a signed-in user passes exactly when they are
      a manager; everyone else lands on the dashboard. */
  lemma ManagerOnlyRoutes(user: Actor)
    ensures Guard(false, Some(user), Some(ManagerOnly)) == Outlet <==> user.role == Manager
    ensures user.role != Manager ==> Guard(false, Some(user), Some(ManagerOnly)) == RedirectDashboard
  {
  }

  /** An unrestricted route admits every signed-in user, and a user is never
      sent to the dashboard by it. */
  lemma UnrestrictedRoutes(loading: bool, user: Option<Actor>)
    ensures Guard(loading, user, None) != RedirectDashboard
    ensures user.Some? && !loading ==> Guard(loading, user, None) == Outlet
  {
  }
}
