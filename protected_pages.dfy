/** The route guard (`ProtectedPages`): it renders the nested routes when the
    session flag is set; otherwise it renders nothing, and its effect logs
    out and navigates to "/". */
module ProtectedPages {
  import opened Common
  import opened AuthContext

  const GuardRedirectPath := "/"

  /** `Render` stands for `<Outlet />`; `Redirect(path)` for rendering `null`
      while the effect navigates to `path`. */
  datatype Decision = Render | Redirect(path: string)

  function Decide(isAuthenticated: bool): (d: Decision)
    ensures d.Render? <==> isAuthenticated
    ensures d.Redirect? ==> d.path == "/"
  {
    if isAuthenticated then Render else Redirect(GuardRedirectPath)
  }

  /** The session after one guard step: unchanged when authenticated,
      otherwise logged out. */
  function Guarded(s: Session): (r: Session)
    ensures s.isAuthenticated ==> r == s
    ensures !s.isAuthenticated ==> r == LoggedOut(s)
  {
    if s.isAuthenticated then s else LoggedOut(s)
  }

  /** Render decision plus effect, applied to the live session. */
  method Guard(session: AuthProvider) returns (d: Decision)
    modifies session
    ensures d == Decide(old(session.isAuthenticated))
    ensures session.Snapshot() == Guarded(old(session.Snapshot()))
  {
    d := Decide(session.isAuthenticated);
    if !session.isAuthenticated {
      session.Logout();
    }
  }

  /** Running the guard again while unauthenticated changes nothing more. */
  lemma GuardIdempotent(s: Session)
    ensures Guarded(Guarded(s)) == Guarded(s)
    ensures Decide(Guarded(s).isAuthenticated) == Decide(s.isAuthenticated)
  {
  }

  /** The guard runs while the flag still has its initial `false`: a stored
      session is deleted, and the restore effect that follows finds nothing,
      so the visitor ends logged out and is sent to "/". */
  lemma GuardBeforeRestoreEndsSession(storage: Storage)
    ensures Decide(Initial(storage).isAuthenticated) == Redirect("/")
    ensures var r := Restored(Guarded(Initial(storage)));
            r == LoggedOut(Initial(storage)) && !HasStoredToken(r.storage)
  {
  }

  /** Had the restore effect run first, a stored token would have kept the
      visitor on the protected page with the session untouched. */
  lemma RestoreBeforeGuardKeepsSession(storage: Storage)
    requires HasStoredToken(storage)
    ensures var r := Restored(Initial(storage));
            Decide(r.isAuthenticated) == Render && Guarded(r) == r && r.token == Some(storage[TokenKey])
  {
  }

  /** The same sequence on the live objects, as it happens on a page load at
      a protected route. */
  method LoadProtectedRoute(stored: Storage) returns (session: AuthProvider, d: Decision)
    ensures d == Redirect("/")
    ensures session.Snapshot() == LoggedOut(Initial(stored))
    ensures !session.isAuthenticated && !HasStoredToken(session.storage)
  {
    session := new AuthProvider(stored);
    d := Guard(session);
    session.Restore();
  }
}
