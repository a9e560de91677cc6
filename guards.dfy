/** src/components/ProtectedRoute.tsx and src/components/AdminRoute.tsx: what
    a guarded route renders for the session state and the current path. */
module RouteGuards {
  import opened Base

  /** The spinner, a redirect (with the current location as state when the
      guard passes one), or the guarded page itself. */
  datatype View = Spinner | Redirect(to: string, from: Option<string>) | Children

  /** The session flags a guard reads from the auth context. */
  datatype Session = Session(loading: bool, hasUser: bool, isAdmin: bool)

  /** `pathname.startsWith(prefix)`. */
  predicate StartsWith(pathname: string, prefix: string)
  {
    prefix <= pathname
  }

  function ProtectedRoute(s: Session, pathname: string): View
  {
    if s.loading then Spinner
    else if !s.hasUser then Redirect("/login", Some(pathname))
    else if s.isAdmin && StartsWith(pathname, "/dashboard") then Redirect("/admin/dashboard", None)
    else Children
  }

  function AdminRoute(s: Session, pathname: string): View
  {
    if s.loading then Spinner
    else if !s.hasUser then Redirect("/admin/login", Some(pathname))
    else if !s.isAdmin then Redirect("/dashboard", None)
    else Children
  }

  /** The user-route guard: the spinner whenever loading, the login page with
      the current location when signed out, the admin dashboard for an admin
      under /dashboard, and the page in every other case, so an admin does
      reach /deposit and /withdrawal. */
  lemma ProtectedRouteDecision(s: Session, pathname: string)
    ensures s.loading ==> ProtectedRoute(s, pathname) == Spinner
    ensures !s.loading && !s.hasUser ==> ProtectedRoute(s, pathname) == Redirect("/login", Some(pathname))
    ensures !s.loading && s.hasUser && s.isAdmin && StartsWith(pathname, "/dashboard") ==>
      ProtectedRoute(s, pathname) == Redirect("/admin/dashboard", None)
    ensures ProtectedRoute(s, pathname) == Children <==>
      !s.loading && s.hasUser && !(s.isAdmin && StartsWith(pathname, "/dashboard"))
    ensures !s.loading && s.hasUser ==>
      ProtectedRoute(s, "/deposit") == Children && ProtectedRoute(s, "/withdrawal") == Children
  {
    assert "/deposit"[2] != "/dashboard"[2];
    assert "/withdrawal"[1] != "/dashboard"[1];
  }

  /** The admin-route guard renders the page exactly for a loaded admin
      session, and sends a signed-in non-admin to /dashboard. */
  lemma AdminRouteDecision(s: Session, pathname: string)
    ensures s.loading ==> AdminRoute(s, pathname) == Spinner
    ensures !s.loading && !s.hasUser ==> AdminRoute(s, pathname) == Redirect("/admin/login", Some(pathname))
    ensures !s.loading && s.hasUser && !s.isAdmin ==> AdminRoute(s, pathname) == Redirect("/dashboard", None)
    ensures AdminRoute(s, pathname) == Children <==> !s.loading && s.hasUser && s.isAdmin
  {
  }

  /** The two guards never send a loaded, signed-in session back and forth:
      each redirect between them lands on a page the other guard renders. */
  lemma RedirectsSettle(s: Session, pathname: string)
    requires !s.loading && s.hasUser
    ensures AdminRoute(s, pathname) == Redirect("/dashboard", None) ==> ProtectedRoute(s, "/dashboard") == Children
    ensures ProtectedRoute(s, pathname) == Redirect("/admin/dashboard", None) ==> AdminRoute(s, "/admin/dashboard") == Children
  {
  }
}
