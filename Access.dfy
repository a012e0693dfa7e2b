/** The two decorators that guard the routes: flask_login's
    `login_required`, configured to send anonymous users to the login view
    with an informational message, and the application's `admin_required`,
    which sends every non-admin back to the home page with a warning. */
module Access {

  datatype Session = Anonymous | SignedIn(username: string, role: string)

  const AdminRole: string := "admin"

  datatype View = HomeView | LoginView | FleetView | ReportsView

  datatype Flash = Flash(message: string, category: string)

  const LoginMessage: Flash := Flash("Por favor, faça o login para acessar esta página.", "info")
  const DeniedMessage: Flash := Flash("Você não tem permissão para acessar esta página.", "danger")

  /** What a guarded route answers: the wrapped action's answer, or a
      redirect with a flashed message. */
  datatype Response<T> = Ran(value: T) | Redirect(to: View, flash: Flash)

  predicate IsAdmin(s: Session)
  {
    s.SignedIn? && s.role == AdminRole
  }

  /** `admin_required`: the action runs iff the user is signed in with the
      admin role; otherwise it is not run and the answer is a redirect home. */
  function AdminRequired<T>(s: Session, action: () -> T): (r: Response<T>)
    ensures r.Ran? <==> s.SignedIn? && s.role == "admin"
    ensures r.Ran? ==> r.value == action()
    ensures r.Redirect? ==> r == Redirect(HomeView, DeniedMessage)
  {
    if s.Anonymous? || s.role != AdminRole then Redirect(HomeView, DeniedMessage)
    else Ran(action())
  }

  /** `login_required`: anonymous users go to the login view. */
  function LoginRequired<T>(s: Session, inner: () -> Response<T>): (r: Response<T>)
    ensures s.Anonymous? ==> r == Redirect(LoginView, LoginMessage)
    ensures s.SignedIn? ==> r == inner()
  {
    if s.Anonymous? then Redirect(LoginView, LoginMessage) else inner()
  }

  /** The routes are stacked `@login_required` over `@admin_required`, so an
      anonymous user reaches the login view, never the admin check. */
  lemma AdminRouteOutcomes<T>(s: Session, action: () -> T)
    ensures var r := LoginRequired(s, () => AdminRequired(s, action));
      && (s.Anonymous? ==> r == Redirect(LoginView, LoginMessage))
      && (s.SignedIn? && s.role != AdminRole ==> r == Redirect(HomeView, DeniedMessage))
      && (IsAdmin(s) ==> r == Ran(action()))
  {
  }
}
