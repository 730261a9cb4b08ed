/** `ProtectedRoute`: what a guarded route renders, decided from the session. */
module ProtectedRoute {
  import opened Common
  import opened AuthContext

  /** The three outcomes: the loading view, a redirect (the one to the dashboard
      comes with an "Access denied" alert), or the route's children. */
  datatype View = LoadingView | RedirectToLogin | RedirectToDashboard | Children

  /** The decision, in the order the component checks: loading, then
      authentication, then admin rights; `requireAdmin` defaults to false. */
  function Decide(loading: bool, authenticated: bool, admin: bool, requireAdmin: Option<bool>): (v: View)
    ensures v == LoadingView <==> loading
    ensures v == RedirectToLogin <==> !loading && !authenticated
    ensures v == RedirectToDashboard <==>
      !loading && authenticated && requireAdmin == Some(true) && !admin
    ensures v == Children <==> !loading && authenticated && (requireAdmin != Some(true) || admin)
  {
    var adminOnly := match requireAdmin case Some(b) => b case None => false;
    if loading then LoadingView
    else if !authenticated then RedirectToLogin
    else if adminOnly && !admin then RedirectToDashboard
    else Children
  }

  /** The decision for a route over the current session. */
  function Guard(session: AuthSession, requireAdmin: Option<bool>): (v: View)
    reads session
    ensures v == Children ==> !session.loading && session.IsAuthenticated()
    ensures v == Children && requireAdmin == Some(true) ==> session.IsAdmin()
  {
    Decide(session.loading, session.IsAuthenticated(), session.IsAdmin(), requireAdmin)
  }

  /** Without `requireAdmin` the admin flag never matters. */
  lemma AdminIrrelevantByDefault(loading: bool, authenticated: bool, a1: bool, a2: bool)
    ensures Decide(loading, authenticated, a1, None) == Decide(loading, authenticated, a2, None)
    ensures Decide(loading, authenticated, a1, Some(false)) == Decide(loading, authenticated, a2, None)
  {
  }
}
