/** frontend/src/components/ProtectedRoute.tsx: what a guarded route shows
    (the spinner, a redirect or the page) for the signed-in user, and, with
    the route table of frontend/src/App.tsx, where following the redirects
    leads. */
module ProtectedRoute {
  import opened Common

  /** The signed-in user; `kind` is the `type` field (customer, business or
      one of the staff roles). */
  datatype AuthUser = AuthUser(kind: string)

  datatype View = Spinner | Redirect(to: string) | Render

  const LoginPath := "/login"
  const RegisterPath := "/register"
  const HomePath := "/"
  const CustomerDashboard := "/dashboard/customer"
  const BusinessDashboard := "/dashboard/business"

  /** The roles of `AdminRoute`. */
  const StaffRoles: seq<string> := ["admin", "it_manager", "project_manager", "supporter", "financial_manager"]

  /** `userDashboard`: the business dashboard for a business user, the
      customer dashboard for anyone else. */
  function Dashboard(kind: string): (p: string)
    ensures kind == "business" ==> p == BusinessDashboard
    ensures kind != "business" ==> p == CustomerDashboard
  {
    if kind == "business" then BusinessDashboard else CustomerDashboard
  }

  /** `ProtectedRoute`; `land` gives the page a signed-in user who may not
      stay is sent to (`Dashboard` as written). */
  function Protected(isLoading: bool, user: Option<AuthUser>, requireAuth: bool, allowedRoles: seq<string>,
                     redirectTo: string, path: string, land: string -> string): (v: View)
    ensures v == Spinner <==> isLoading
    ensures v == Render <==>
              !isLoading
              && (requireAuth ==> user.Some?)
              && (user.Some? && |allowedRoles| > 0 ==> user.value.kind in allowedRoles)
              && !(!requireAuth && user.Some? && (path == LoginPath || path == RegisterPath))
    ensures v.Redirect? && user.None? ==> requireAuth && v.to == redirectTo
    ensures v.Redirect? && user.Some? ==> v.to == land(user.value.kind)
  {
    if isLoading then Spinner
    else if requireAuth && user.None? then Redirect(redirectTo)
    else if user.Some? && |allowedRoles| > 0 && user.value.kind !in allowedRoles then Redirect(land(user.value.kind))
    else if !requireAuth && user.Some? && (path == LoginPath || path == RegisterPath) then Redirect(land(user.value.kind))
    else Render
  }

  /** `GuestRoute`: for visitors; a signed-in user on the login or register
      page is sent on. */
  function GuestRoute(isLoading: bool, user: Option<AuthUser>, path: string): (v: View)
    ensures v == Spinner <==> isLoading
    ensures !isLoading && user.Some? && (path == LoginPath || path == RegisterPath) ==>
              v == Redirect(Dashboard(user.value.kind))
    ensures !isLoading && !(user.Some? && (path == LoginPath || path == RegisterPath)) ==> v == Render
  {
    Protected(isLoading, user, false, [], LoginPath, path, Dashboard)
  }

  /** `AdminRoute`: staff only. */
  function AdminRoute(isLoading: bool, user: Option<AuthUser>, path: string): (v: View)
    ensures v == Spinner <==> isLoading
    ensures !isLoading && user.None? ==> v == Redirect(LoginPath)
    ensures !isLoading && user.Some? && user.value.kind !in StaffRoles ==> v == Redirect(Dashboard(user.value.kind))
    ensures !isLoading && user.Some? && user.value.kind in StaffRoles ==> v == Render
  {
    Protected(isLoading, user, true, StaffRoles, LoginPath, path, Dashboard)
  }

  /** The admin route renders exactly for a signed-in staff user. */
  lemma AdminRouteOnlyStaff(isLoading: bool, user: Option<AuthUser>, path: string)
    ensures AdminRoute(isLoading, user, path) == Render <==> !isLoading && user.Some? && user.value.kind in StaffRoles
  {
  }

  /** A guest page is shown to every visitor and to no signed-in user. */
  lemma GuestPageOnlyForVisitors(isLoading: bool, user: Option<AuthUser>, path: string)
    requires path == LoginPath || path == RegisterPath
    ensures GuestRoute(isLoading, user, path) == Render <==> !isLoading && user.None?
  {
  }

  /** `CustomerRoute` and `BusinessRoute`: the login page for visitors, the
      page for a user of `role`, and `land` for any other user (as written
      the other dashboard). */
  function RoleRoute(isLoading: bool, user: Option<AuthUser>, role: string, land: string -> string): (v: View)
    ensures v == Spinner <==> isLoading
    ensures v == Render <==> !isLoading && user.Some? && user.value.kind == role
    ensures !isLoading && user.None? ==> v == Redirect(LoginPath)
    ensures !isLoading && user.Some? && user.value.kind != role ==> v == Redirect(land(user.value.kind))
  {
    if isLoading then Spinner
    else if user.None? then Redirect(LoginPath)
    else if user.value.kind != role then Redirect(land(user.value.kind))
    else Render
  }

  /** For customers and business users the role route decides like
      `ProtectedRoute` restricted to that role. */
  lemma RoleRouteIsARestriction(isLoading: bool, user: Option<AuthUser>, role: string, path: string)
    requires role == "customer" || role == "business"
    requires user.Some? ==> user.value.kind == "customer" || user.value.kind == "business"
    ensures RoleRoute(isLoading, user, role, Dashboard) == Protected(isLoading, user, true, [role], LoginPath, path, Dashboard)
  {
  }

  /** The guard App.tsx puts around each path. */
  datatype Guard = Open | SignedIn | Guest | CustomerOnly | BusinessOnly

  const CustomerPaths: seq<string> := [
    "/dashboard/customer", "/dashboard/customer/discounts", "/dashboard/customer/scan",
    "/dashboard/customer/eliteoffer", "/dashboard/customer/favorites", "/dashboard/customer/orders",
    "/dashboard/customer/messages", "/dashboard/customer/support"]

  const BusinessPaths: seq<string> := [
    "/dashboard/business", "/dashboard/business/eliteoffer", "/dashboard/business/customers",
    "/dashboard/business/discounts", "/dashboard/business/discounts/create"]

  const SignedInPaths: seq<string> := ["/discounts", "/profile", "/debug", "/dashboard"]

  function GuardOf(path: string): (g: Guard)
    ensures path == LoginPath || path == RegisterPath <==> g == Guest
    ensures g == CustomerOnly <==> path in CustomerPaths
    ensures g == BusinessOnly <==> path in BusinessPaths
    ensures path == HomePath ==> g == Open
  {
    if path == LoginPath || path == RegisterPath then Guest
    else if path in CustomerPaths then CustomerOnly
    else if path in BusinessPaths then BusinessOnly
    else if path in SignedInPaths then SignedIn
    else Open
  }

  /** The app as written, or with every refused signed-in user sent to the
      page that user may see. */
  datatype Routing = AsWritten | Corrected

  /** Corrected landing: each user's own dashboard, the home page for staff. */
  function HomeOf(kind: string): (p: string)
    ensures kind == "customer" ==> p == CustomerDashboard
    ensures kind == "business" ==> p == BusinessDashboard
    ensures kind != "customer" && kind != "business" ==> p == HomePath
  {
    if kind == "customer" then CustomerDashboard
    else if kind == "business" then BusinessDashboard
    else HomePath
  }

  /** What `path` shows. */
  function ViewOf(routing: Routing, path: string, isLoading: bool, user: Option<AuthUser>): (v: View)
    ensures GuardOf(path) == Open ==> v == Render
    ensures GuardOf(path) != Open ==> (v == Spinner <==> isLoading)
    ensures GuardOf(path) != Open && GuardOf(path) != Guest && !isLoading && user.None? ==> v == Redirect(LoginPath)
    ensures GuardOf(path) == CustomerOnly && !isLoading ==> (v == Render <==> user.Some? && user.value.kind == "customer")
    ensures GuardOf(path) == BusinessOnly && !isLoading ==> (v == Render <==> user.Some? && user.value.kind == "business")
    ensures GuardOf(path) == Guest && !isLoading ==> (v == Render <==> user.None?)
  {
    var land := if routing == AsWritten then Dashboard else HomeOf;
    match GuardOf(path)
    case Open => Render
    case SignedIn => Protected(isLoading, user, true, [], LoginPath, path, land)
    case Guest => Protected(isLoading, user, false, [], LoginPath, path, land)
    case CustomerOnly => RoleRoute(isLoading, user, "customer", if routing == AsWritten then _ => BusinessDashboard else HomeOf)
    case BusinessOnly => RoleRoute(isLoading, user, "business", if routing == AsWritten then _ => CustomerDashboard else HomeOf)
  }

  /** The correction changes nothing for customers, business users and
      visitors. */
  lemma CorrectionOnlyForStaff(path: string, isLoading: bool, user: Option<AuthUser>)
    requires user.Some? ==> user.value.kind == "customer" || user.value.kind == "business"
    ensures ViewOf(Corrected, path, isLoading, user) == ViewOf(AsWritten, path, isLoading, user)
  {
  }

  /** The page finally shown after following at most `n - 1` redirects
      once loading is over, or None. */
  function Visit(routing: Routing, path: string, user: Option<AuthUser>, n: nat): (r: Option<string>)
    ensures r.Some? ==> ViewOf(routing, r.value, false, user) == Render
    decreases n
  {
    if n == 0 then None
    else match ViewOf(routing, path, false, user)
      case Render => Some(path)
      case Redirect(to) => Visit(routing, to, user, n - 1)
      case Spinner => None
  }

  /** As written, a staff user bounces between the two dashboards for
      ever, and so does one who opens the login page while signed in. */
  lemma {:induction false} StaffRedirectLoop(u: AuthUser, n: nat)
    requires u.kind != "customer" && u.kind != "business"
    ensures Visit(AsWritten, CustomerDashboard, Some(u), n).None?
    ensures Visit(AsWritten, BusinessDashboard, Some(u), n).None?
    ensures Visit(AsWritten, LoginPath, Some(u), n).None?
  {
    if n > 0 {
      StaffRedirectLoop(u, n - 1);
      assert ViewOf(AsWritten, CustomerDashboard, false, Some(u)) == Redirect(BusinessDashboard);
      assert ViewOf(AsWritten, BusinessDashboard, false, Some(u)) == Redirect(CustomerDashboard);
      assert ViewOf(AsWritten, LoginPath, false, Some(u)) == Redirect(CustomerDashboard);
    }
  }

  /** Corrected, every path shows a page after at most one redirect, for
      every visitor and every signed-in user. */
  lemma EveryPathSettles(path: string, user: Option<AuthUser>)
    ensures Visit(Corrected, path, user, 2).Some?
  {
    match ViewOf(Corrected, path, false, user)
    case Render =>
    case Redirect(to) =>
      if user.Some? {
        assert to == HomeOf(user.value.kind);
        assert ViewOf(Corrected, to, false, user) == Render;
      } else {
        assert to == LoginPath;
        assert ViewOf(Corrected, to, false, user) == Render;
      }
    case Spinner =>
  }
}
