/** Client-side routing (clinic-frontend/src/App.jsx and
    clinic-frontend/src/components/ProtectedRoute.jsx): the route table, the
    home redirect and the role guard, and what a visitor finally sees after
    following the redirects. */
module Routing {
  import opened Common
  import opened Http
  import opened Session

  /** Who is looking: nobody signed in, or a user with the role the profile carries (possibly null). */
  datatype Viewer = Guest | SignedIn(role: Option<string>)

  function ViewerOf(a: AuthState): (v: Viewer)
    ensures a.user.None? <==> v.Guest?
    ensures a.user.Some? ==> v.role == Get(a.user.value, "role")
  {
    match a.user
    case None => Guest
    case Some(u) => SignedIn(Get(u, "role"))
  }

  datatype Screen =
    | LoginScreen
    | AdminDashboard | RegisterScreen
    | DoctorDashboard
    | NurseDashboard
    | PatientDashboard
    | ReceptionistDashboard | BillingScreen | AppointmentsScreen | PatientDetailsScreen | SettingsScreen
    | PharmacistDashboard
    | LabDashboard

  /** The role a screen's guard admits; the login page has no guard. */
  function ScreenRole(s: Screen): Option<string> {
    match s
    case LoginScreen => None
    case AdminDashboard | RegisterScreen => Some("ADMIN")
    case DoctorDashboard => Some("DOCTOR")
    case NurseDashboard => Some("NURSE")
    case PatientDashboard => Some("PATIENT")
    case ReceptionistDashboard | BillingScreen | AppointmentsScreen | PatientDetailsScreen | SettingsScreen => Some("RECEPTIONIST")
    case PharmacistDashboard => Some("PHARMACIST")
    case LabDashboard => Some("LAB")
  }

  /** What the route table puts at a path. */
  datatype Page = Home | LoginPage | Guarded(screen: Screen) | NoRoute

  predicate StartsWith(s: string, prefix: string) {
    |prefix| <= |s| && s[..|prefix|] == prefix
  }

  /** `/patients/:id`: one non-empty segment after the prefix. */
  predicate PatientPath(path: string) {
    StartsWith(path, "/patients/") && |path| > 10 && forall i :: 10 <= i < |path| ==> path[i] != '/'
  }

  /** The nurse route: the dashboard path and every path below it. */
  predicate NursePath(path: string) {
    path == "/nurse-dashboard" || StartsWith(path, "/nurse-dashboard/")
  }

  /** The routes without parameters or wildcards. */
  const FixedPaths: set<string> := {"/", "/login", "/admin-dashboard", "/doctor-dashboard", "/patient-dashboard",
    "/receptionist-dashboard", "/billing", "/appointments", "/settings", "/pharmacist-dashboard", "/lab-dashboard",
    "/register"}

  /** The route table: fixed routes first, then the two patterns, then the catch-all. */
  function PageAt(path: string): (p: Page)
    ensures p.Guarded? ==> p.screen != LoginScreen
    ensures p == NoRoute <==> (path !in FixedPaths && !NursePath(path) && !PatientPath(path))
  {
    if path == "/" then Home
    else if path == "/login" then LoginPage
    else if path == "/admin-dashboard" then Guarded(AdminDashboard)
    else if path == "/doctor-dashboard" then Guarded(DoctorDashboard)
    else if path == "/patient-dashboard" then Guarded(PatientDashboard)
    else if path == "/receptionist-dashboard" then Guarded(ReceptionistDashboard)
    else if path == "/billing" then Guarded(BillingScreen)
    else if path == "/appointments" then Guarded(AppointmentsScreen)
    else if path == "/settings" then Guarded(SettingsScreen)
    else if path == "/pharmacist-dashboard" then Guarded(PharmacistDashboard)
    else if path == "/lab-dashboard" then Guarded(LabDashboard)
    else if path == "/register" then Guarded(RegisterScreen)
    else if NursePath(path) then Guarded(NurseDashboard)
    else if PatientPath(path) then Guarded(PatientDetailsScreen)
    else NoRoute
  }

  /** The seven roles the front end knows. */
  const KnownRoles: set<string> := {"ADMIN", "DOCTOR", "NURSE", "PATIENT", "RECEPTIONIST", "PHARMACIST", "LAB"}

  /** Each role's own dashboard. */
  function DashboardOf(role: string): (s: Screen)
    requires role in KnownRoles
    ensures ScreenRole(s) == Some(role)
  {
    match role
    case "ADMIN" => AdminDashboard
    case "DOCTOR" => DoctorDashboard
    case "NURSE" => NurseDashboard
    case "PATIENT" => PatientDashboard
    case "RECEPTIONIST" => ReceptionistDashboard
    case "PHARMACIST" => PharmacistDashboard
    case "LAB" => LabDashboard
  }

  /** Where `/` sends a visitor: a known role to its dashboard, anyone else to the login page. */
  function HomeTarget(v: Viewer): (path: string)
    ensures v.SignedIn? && v.role.Some? && v.role.value in KnownRoles ==>
      PageAt(path) == Guarded(DashboardOf(v.role.value))
    ensures !(v.SignedIn? && v.role.Some? && v.role.value in KnownRoles) ==> path == "/login"
  {
    match v
    case Guest => "/login"
    case SignedIn(role) =>
      match role
      case Some("ADMIN") => "/admin-dashboard"
      case Some("DOCTOR") => "/doctor-dashboard"
      case Some("NURSE") => "/nurse-dashboard"
      case Some("PATIENT") => "/patient-dashboard"
      case Some("RECEPTIONIST") => "/receptionist-dashboard"
      case Some("PHARMACIST") => "/pharmacist-dashboard"
      case Some("LAB") => "/lab-dashboard"
      case _ => "/login"
  }

  datatype View = Render(screen: Screen) | Redirect(to: string)

  /** The role guard: a guest goes to `/`; a user with another role goes to
      their own dashboard when the guard knows it (it has no NURSE entry),
      else to `/`; the right role sees the page. */
  function Guard(v: Viewer, screen: Screen): (r: View)
    requires ScreenRole(screen).Some?
    ensures r.Render? <==> v.SignedIn? && v.role == ScreenRole(screen)
    ensures r.Render? ==> r.screen == screen
    ensures r.Redirect? && v.SignedIn? && v.role.Some? && v.role.value in KnownRoles - {"NURSE"} ==>
      PageAt(r.to) == Guarded(DashboardOf(v.role.value))
    ensures r.Redirect? && !(v.SignedIn? && v.role.Some? && v.role.value in KnownRoles - {"NURSE"}) ==> r.to == "/"
  {
    match v
    case Guest => Redirect("/")
    case SignedIn(role) =>
      if role == ScreenRole(screen) then Render(screen)
      else
        match role
        case Some("ADMIN") => Redirect("/admin-dashboard")
        case Some("DOCTOR") => Redirect("/doctor-dashboard")
        case Some("PATIENT") => Redirect("/patient-dashboard")
        case Some("RECEPTIONIST") => Redirect("/receptionist-dashboard")
        case Some("PHARMACIST") => Redirect("/pharmacist-dashboard")
        case Some("LAB") => Redirect("/lab-dashboard")
        case _ => Redirect("/")
  }

  /** What the router shows at a path, or where it sends the visitor. */
  function Step(path: string, v: Viewer): View {
    match PageAt(path)
    case Home => Redirect(HomeTarget(v))
    case LoginPage => Render(LoginScreen)
    case Guarded(s) => Guard(v, s)
    case NoRoute => Redirect("/login")
  }

  /** Follow at most `hops` redirects from `path`. */
  function Resolve(path: string, v: Viewer, hops: nat): (r: Option<Screen>)
    decreases hops
  {
    match Step(path, v)
    case Render(s) => Some(s)
    case Redirect(to) => if hops == 0 then None else Resolve(to, v, hops - 1)
  }

  /** Every role's own dashboard admits it. */
  lemma DashboardAdmitsItsRole(role: string)
    requires role in KnownRoles
    ensures Guard(SignedIn(Some(role)), DashboardOf(role)) == Render(DashboardOf(role))
  {
  }

  /** Whatever the path and whoever the viewer, a screen renders within two
      redirects, and the screen is one the viewer may see: the login page, or
      a page guarded for exactly the viewer's role. */
  lemma {:induction false} EveryPathSettles(path: string, v: Viewer)
    ensures Resolve(path, v, 2).Some?
    ensures var s := Resolve(path, v, 2).value;
      ScreenRole(s).None? || (v.SignedIn? && v.role == ScreenRole(s))
  {
    match Step(path, v)
    case Render(s) =>
    case Redirect(to) =>
      match Step(to, v)
      case Render(s) =>
      case Redirect(to2) =>
        HomeTargetRenders(v);
        StepSecondHop(path, v);
  }

  /** The home target always renders directly. */
  lemma HomeTargetRenders(v: Viewer)
    ensures Step(HomeTarget(v), v).Render?
  {
    if v.SignedIn? && v.role.Some? && v.role.value in KnownRoles {
      DashboardAdmitsItsRole(v.role.value);
    }
  }

  /** A first redirect leads either straight to a rendered page or to `/`. */
  lemma StepSecondHop(path: string, v: Viewer)
    requires Step(path, v).Redirect?
    ensures var to := Step(path, v).to; Step(to, v).Render? || to == "/"
  {
    var to := Step(path, v).to;
    match PageAt(path)
    case Home => HomeTargetRenders(v);
    case LoginPage =>
    case Guarded(s) =>
      if v.SignedIn? && v.role.Some? && v.role.value in KnownRoles - {"NURSE"} {
        DashboardAdmitsItsRole(v.role.value);
      }
    case NoRoute =>
  }

  /** Two redirects are sometimes needed: a nurse who opens another role's
      page is sent to `/` first (the guard has no NURSE entry) and only then
      to the nurse dashboard. */
  lemma NurseDetour()
    ensures Step("/billing", SignedIn(Some("NURSE"))) == Redirect("/")
    ensures Resolve("/billing", SignedIn(Some("NURSE")), 1).None?
    ensures Resolve("/billing", SignedIn(Some("NURSE")), 2) == Some(NurseDashboard)
  {
    assert PageAt("/") == Home;
    assert NursePath("/nurse-dashboard");
  }

  /** A guest always lands on the login page. */
  lemma GuestSeesLogin(path: string)
    ensures Resolve(path, Guest, 2) == Some(LoginScreen)
  {
    EveryPathSettles(path, Guest);
  }
}
