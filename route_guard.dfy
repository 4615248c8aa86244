/**
 * The global navigation guard (`router.beforeEach` in `src/router/index.ts`).
 * It reads the stored token and role, never writes storage, and settles each
 * navigation with exactly one call of `next`: continue, or go elsewhere,
 * sometimes with a notification.
 */
module RouteGuard {
  import opened Wrappers
  import Js
  import Auth
  import opened Browser
  import opened RouteTable

  /** Where `next(...)` sends the navigation: a path, or a route by name. */
  datatype Location = Path(path: string) | Named(name: string)

  /** `next()` or `next(location)`. */
  datatype Next = Proceed | Redirect(to: Location)

  /** The single `next` call of one guard run, and the message shown with it. */
  datatype Verdict = Verdict(next: Next, notice: Option<Effect>)

  const PleaseLogInText: string := "请先登录"
  const NoPermissionText: string := "您没有权限访问该页面"

  /** `to.meta.roles && Array.isArray(to.meta.roles) && userRole && !to.meta.roles.includes(userRole)`:
      the route lists roles (an empty list is still truthy), a role is stored
      and it is not listed. */
  predicate RoleRefused(meta: RouteMeta, userRole: Option<string>) {
    meta.roles.Some? && Js.Truthy(Js.FromItem(userRole)) && userRole.value !in meta.roles.value
  }

  /** One run of the guard for a navigation to `toPath` whose route has `meta`.
      It only ever sends the navigation to `/`, to `login` or to `index`; only
      the login page is sent to `/`; a navigation let through shows nothing. */
  function BeforeEach(storage: Storage, toPath: string, meta: RouteMeta): (v: Verdict)
    ensures v.next.Redirect? ==>
      v.next.to == Path("/") || v.next.to == Named("login") || v.next.to == Named("index")
    ensures v.next == Redirect(Path("/")) ==> toPath == LoginPath
    ensures v.next == Proceed ==> v.notice == None
  {
    var token := Get(storage, TokenKey);
    var userRole := Get(storage, RoleKey);
    if toPath == LoginPath && Auth.HasToken(token) then
      Verdict(Redirect(Path("/")), None)
    else if meta.requiresAuth == Some(true) then
      if !Auth.HasToken(token) then
        Verdict(Redirect(Named("login")), Some(Message(Warning, PleaseLogInText)))
      else if RoleRefused(meta, userRole) then
        Verdict(Redirect(Named("index")), Some(Message(Error, NoPermissionText)))
      else
        Verdict(Proceed, None)
    else
      Verdict(Proceed, None)
  }

  /** A logged-in user who opens the login page is sent to `/`, whatever the
      route says. */
  lemma LoginPageWithTokenGoesHome(storage: Storage, meta: RouteMeta)
    requires Auth.HasToken(Get(storage, TokenKey))
    ensures BeforeEach(storage, LoginPath, meta) == Verdict(Redirect(Path("/")), None)
  {
  }

  /** A protected page without a token: warn "请先登录" and go to `login`. */
  lemma ProtectedWithoutToken(storage: Storage, toPath: string, meta: RouteMeta)
    requires meta.requiresAuth == Some(true)
    requires !Auth.HasToken(Get(storage, TokenKey))
    ensures BeforeEach(storage, toPath, meta)
         == Verdict(Redirect(Named("login")), Some(Message(Warning, PleaseLogInText)))
  {
  }

  /** A protected page whose roles do not include the stored role: an error
      message and a redirect to `index`. */
  lemma WrongRoleGoesToIndex(storage: Storage, toPath: string, meta: RouteMeta)
    requires toPath != LoginPath
    requires meta.requiresAuth == Some(true)
    requires Auth.HasToken(Get(storage, TokenKey))
    requires meta.roles.Some? && RoleKey in storage && storage[RoleKey] != ""
    requires storage[RoleKey] !in meta.roles.value
    ensures BeforeEach(storage, toPath, meta)
         == Verdict(Redirect(Named("index")), Some(Message(Error, NoPermissionText)))
  {
  }

  /** With a token but no stored role, a page that lists roles is let through. */
  lemma MissingRoleIsLetThrough(storage: Storage, toPath: string, meta: RouteMeta)
    requires toPath != LoginPath
    requires meta.requiresAuth == Some(true) && meta.roles.Some?
    requires Auth.HasToken(Get(storage, TokenKey))
    requires RoleKey !in storage || storage[RoleKey] == ""
    ensures BeforeEach(storage, toPath, meta) == Verdict(Proceed, None)
  {
  }

  /** A protected page whose `roles` is an empty list refuses every stored
      role: an empty array is truthy, and includes nothing. */
  lemma EmptyRolesRefuseEveryRole(storage: Storage, toPath: string, isMenu: bool)
    requires toPath != LoginPath
    requires Auth.HasToken(Get(storage, TokenKey))
    requires RoleKey in storage && storage[RoleKey] != ""
    ensures BeforeEach(storage, toPath, RouteMeta(isMenu, Some(true), Some([]))).next == Redirect(Named("index"))
  {
  }

  /** A page that does not require login is let through, except the login
      page for a logged-in user. */
  lemma PublicPageProceeds(storage: Storage, toPath: string, meta: RouteMeta)
    requires meta.requiresAuth != Some(true)
    requires !(toPath == LoginPath && Auth.HasToken(Get(storage, TokenKey)))
    ensures BeforeEach(storage, toPath, meta) == Verdict(Proceed, None)
  {
  }

  /** When the guard lets a navigation through, in terms of what the page
      asks for: both directions. */
  lemma ProceedsExactlyWhen(storage: Storage, toPath: string, meta: RouteMeta)
    ensures BeforeEach(storage, toPath, meta).next == Proceed
        <==> && !(toPath == LoginPath && Auth.HasToken(Get(storage, TokenKey)))
             && (meta.requiresAuth == Some(true) ==>
                   Auth.HasToken(Get(storage, TokenKey)) && !RoleRefused(meta, Get(storage, RoleKey)))
  {
  }

  /** A notification accompanies exactly the redirects by route name. */
  lemma NoticeExactlyOnNamedRedirect(storage: Storage, toPath: string, meta: RouteMeta)
    ensures BeforeEach(storage, toPath, meta).notice.Some?
        <==> BeforeEach(storage, toPath, meta).next.Redirect? && BeforeEach(storage, toPath, meta).next.to.Named?
  {
  }

  /** The path a location stands for in the route table (`/` when a name is unknown). */
  function PathOf(loc: Location): string {
    match loc
    case Path(p) => p
    case Named(n) => NamedPath(Routes, n)
  }

  function NamedPath(routes: seq<Route>, name: string): string {
    if routes == [] then "/"
    else if routes[0].name == name then routes[0].path
    else NamedPath(routes[1..], name)
  }

  /** Every route is found under its own path. */
  lemma {:induction false} LookupFindsEachRoute(routes: seq<Route>, k: nat)
    requires k < |routes|
    requires forall i, j :: 0 <= i < j < |routes| ==> routes[i].path != routes[j].path
    ensures Lookup(routes, routes[k].path) == Some(routes[k])
  {
    if k > 0 {
      assert routes[0].path != routes[k].path;
      LookupFindsEachRoute(routes[1..], k - 1);
    }
  }

  lemma MetaOfEachRoute(k: nat)
    requires k < |Routes|
    ensures MetaFor(Routes[k].path) == Routes[k].meta
  {
    DistinctPathsAndNames();
    LookupFindsEachRoute(Routes, k);
  }

  /** Without a token, every page but the login page sends the user to `login`. */
  lemma EveryPageButLoginNeedsToken(storage: Storage, k: nat)
    requires k < |Routes| && Routes[k].path != LoginPath
    requires !Auth.HasToken(Get(storage, TokenKey))
    ensures BeforeEach(storage, Routes[k].path, MetaFor(Routes[k].path)).next == Redirect(Named("login"))
  {
    MetaOfEachRoute(k);
    ProtectedRouteMeta(k);
    ProtectedWithoutToken(storage, Routes[k].path, Routes[k].meta);
  }

  /** Every route but `/login` requires login. */
  lemma ProtectedRouteMeta(k: nat)
    requires k < |Routes| && Routes[k].path != LoginPath
    ensures Routes[k].meta.requiresAuth == Some(true)
  {
    OnlyLoginIsPublic();
  }

  /** On an admin page, a logged-in user with a stored role gets in exactly
      when the role is `admin`, and is sent to `index` otherwise. */
  lemma AdminPagesAdmitOnlyAdmin(storage: Storage, k: nat)
    requires k < |Routes| && Routes[k].meta.roles.Some?
    requires Auth.HasToken(Get(storage, TokenKey))
    requires RoleKey in storage && storage[RoleKey] != ""
    ensures BeforeEach(storage, Routes[k].path, MetaFor(Routes[k].path)).next
         == if storage[RoleKey] == "admin" then Proceed else Redirect(Named("index"))
  {
    MetaOfEachRoute(k);
    AdminRouteMeta(k);
    AdminGate(storage, Routes[k].path, Routes[k].meta);
  }

  /** What the table says of a route that lists roles. */
  lemma AdminRouteMeta(k: nat)
    requires k < |Routes| && Routes[k].meta.roles.Some?
    ensures Routes[k].path != LoginPath
    ensures Routes[k].meta.requiresAuth == Some(true) && Routes[k].meta.roles == Some(Admin)
  {
    AdminRoutes();
    RolesRequireAuth();
  }

  /** The guard on a protected page restricted to `admin`. */
  lemma AdminGate(storage: Storage, toPath: string, meta: RouteMeta)
    requires toPath != LoginPath
    requires meta.requiresAuth == Some(true) && meta.roles == Some(Admin)
    requires Auth.HasToken(Get(storage, TokenKey))
    requires RoleKey in storage && storage[RoleKey] != ""
    ensures BeforeEach(storage, toPath, meta).next
         == if storage[RoleKey] == "admin" then Proceed else Redirect(Named("index"))
  {
  }

  /** Without a token, `/draw` sends the user to `login`. */
  lemma DrawWithoutToken()
    ensures BeforeEach(map[], "/draw", MetaFor("/draw")).next == Redirect(Named("login"))
  {
    assert Routes[3].path == "/draw";
    EveryPageButLoginNeedsToken(map[], 3);
  }

  /** With a token and role `user`, `/user` sends the user to `index`; with
      role `admin` it is let through. */
  lemma UserPageByRole()
    ensures BeforeEach(map[TokenKey := "t", RoleKey := "user"], "/user", MetaFor("/user")).next
         == Redirect(Named("index"))
    ensures BeforeEach(map[TokenKey := "t", RoleKey := "admin"], "/user", MetaFor("/user")).next == Proceed
  {
    assert Routes[6].path == "/user";
    AdminPagesAdmitOnlyAdmin(map[TokenKey := "t", RoleKey := "user"], 6);
    AdminPagesAdmitOnlyAdmin(map[TokenKey := "t", RoleKey := "admin"], 6);
  }

  lemma NamedTargets()
    ensures NamedPath(Routes, "index") == "/"
    ensures NamedPath(Routes, "login") == LoginPath
  {
  }

  /** A redirect never bounces: guarding the page it sends to, with the same
      storage, lets the navigation through. */
  lemma RedirectTargetIsAdmitted(storage: Storage, toPath: string)
    requires BeforeEach(storage, toPath, MetaFor(toPath)).next.Redirect?
    ensures var target := PathOf(BeforeEach(storage, toPath, MetaFor(toPath)).next.to);
            BeforeEach(storage, target, MetaFor(target)) == Verdict(Proceed, None)
  {
    NamedTargets();
    IndexRoute();
    LoginRoute();
    var token := Get(storage, TokenKey);
    var target := PathOf(BeforeEach(storage, toPath, MetaFor(toPath)).next.to);
    if Auth.HasToken(token) {
      assert target == "/";
      assert MetaFor("/") == RouteMeta(false, Some(true), None);
    } else {
      assert target == LoginPath;
      assert MetaFor(LoginPath).requiresAuth == Some(false);
    }
  }

  /** After the session-expiry recovery clears storage, its navigation to
      `/login` is let through. */
  lemma LoginAdmittedAfterRecovery(storage: Storage)
    ensures BeforeEach(ClearSession(storage), LoginPath, MetaFor(LoginPath)) == Verdict(Proceed, None)
  {
    LoginRoute();
    ClearSessionForgets(storage);
  }
}
