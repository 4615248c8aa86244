/**
 * The application's route records (`src/router/config.ts`): eleven top-level
 * routes, each with the metadata the navigation guard reads.
 */
module RouteTable {
  import opened Wrappers

  /** A route's `meta`; `requiresAuth` and `roles` may be absent. */
  datatype RouteMeta = RouteMeta(isMenu: bool, requiresAuth: Option<bool>, roles: Option<seq<string>>)

  datatype Route = Route(path: string, name: string, redirect: Option<string>, meta: RouteMeta)

  const Admin: seq<string> := ["admin"]

  function MenuRoute(path: string, name: string, roles: Option<seq<string>>): Route {
    Route(path, name, None, RouteMeta(true, Some(true), roles))
  }

  const Routes: seq<Route> := [
    Route("/", "index", Some("/ragChat"), RouteMeta(false, Some(true), None)),
    Route("/login", "login", None, RouteMeta(false, Some(false), None)),
    MenuRoute("/ragChat", "ragChat", None),
    MenuRoute("/draw", "draw", None),
    MenuRoute("/know-hub", "knowHub", None),
    MenuRoute("/user-profile", "userProfile", None),
    MenuRoute("/user", "user", Some(Admin)),
    MenuRoute("/logInfo", "logInfo", Some(Admin)),
    MenuRoute("/sensitive", "sensitive", Some(Admin)),
    MenuRoute("/senCategory", "senCategory", Some(Admin)),
    MenuRoute("/frequency", "frequency", Some(Admin))
  ]

  /** The first route whose path is `path`. */
  function Lookup(routes: seq<Route>, path: string): (r: Option<Route>)
    ensures r.Some? ==> r.value in routes && r.value.path == path
    ensures r.None? ==> forall k :: 0 <= k < |routes| ==> routes[k].path != path
  {
    if routes == [] then None
    else if routes[0].path == path then Some(routes[0])
    else Lookup(routes[1..], path)
  }

  /** The `meta` navigation to `path` carries: that of its route, or none at
      all when no route matches. */
  function MetaFor(path: string): (m: RouteMeta)
    ensures Lookup(Routes, path).None? ==> m.requiresAuth.None? && m.roles.None?
  {
    match Lookup(Routes, path)
    case Some(r) => r.meta
    case None => RouteMeta(false, None, None)
  }

  /** `/` is named `index`, redirects to `/ragChat`, requires login and is not
      shown in the menu. */
  lemma IndexRoute()
    ensures Lookup(Routes, "/") == Some(Route("/", "index", Some("/ragChat"), RouteMeta(false, Some(true), None)))
  {
  }

  /** `/login` is named `login` and does not require login. */
  lemma LoginRoute()
    ensures Lookup(Routes, "/login").Some?
    ensures Lookup(Routes, "/login").value.name == "login"
    ensures Lookup(Routes, "/login").value.meta.requiresAuth == Some(false)
  {
    assert Lookup(Routes, "/login") == Some(Routes[1]);
  }

  /** Every route states `requiresAuth`, and `/login` is the only one where
      it is false. */
  lemma OnlyLoginIsPublic()
    ensures forall k :: 0 <= k < |Routes| ==> Routes[k].meta.requiresAuth.Some?
    ensures forall k :: 0 <= k < |Routes| ==>
      (Routes[k].meta.requiresAuth == Some(false) <==> Routes[k].path == "/login")
  {
    DistinctPathsAndNames();
    assert forall k :: 0 <= k < |Routes| && k != 1 ==> Routes[k].meta.requiresAuth == Some(true);
  }

  /** Exactly five routes are restricted, all to the `admin` role. */
  lemma AdminRoutes()
    ensures forall k :: 0 <= k < |Routes| ==>
      (Routes[k].meta.roles.Some? <==> Routes[k].path in {"/user", "/logInfo", "/sensitive", "/senCategory", "/frequency"})
    ensures forall k :: 0 <= k < |Routes| && Routes[k].meta.roles.Some? ==> Routes[k].meta.roles.value == ["admin"]
  {
  }

  /** A route that lists roles also requires login. */
  lemma RolesRequireAuth()
    ensures forall k :: 0 <= k < |Routes| && Routes[k].meta.roles.Some? ==> Routes[k].meta.requiresAuth == Some(true)
  {
  }

  /** Paths are pairwise distinct, and so are names. */
  lemma DistinctPathsAndNames()
    ensures forall i, j :: 0 <= i < j < |Routes| ==> Routes[i].path != Routes[j].path
    ensures forall i, j :: 0 <= i < j < |Routes| ==> Routes[i].name != Routes[j].name
  {
  }

  /** Only `/` and `/login` are left out of the menu. */
  lemma MenuEntries()
    ensures forall k :: 0 <= k < |Routes| ==> (!Routes[k].meta.isMenu <==> Routes[k].path in {"/", "/login"})
  {
  }
}
