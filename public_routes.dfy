/** The route lists and the membership tests around them, and the
    middleware's redirect decision. Three of the listed routes
    (`ROUTES.AUTH`, `ROUTES.SIGN_IN`, `ROUTES.SIGN_UP`) are not among the
    route constants, so they are parameters here; `None` is `undefined`,
    which is what they evaluate to against the constants that exist. */
module PublicRoutes {
  import opened Wrappers
  import opened Text

  const Root := "/"
  const Home := "/home"
  const Titles := "/titles"
  const About := "/about"

  /** The values of the three routes not among the constants. */
  datatype AuthRoutes = AuthRoutes(auth: Option<string>, signIn: Option<string>, signUp: Option<string>)

  const Undefined := AuthRoutes(None, None, None)

  function PublicList(a: AuthRoutes): (r: seq<Option<string>>)
    ensures |r| == 7 && r[0] == Some(Root)
  {
    [Some(Root), Some(Home), Some(Titles), Some(About), a.auth, a.signIn, a.signUp]
  }

  function AlwaysPublicList(a: AuthRoutes): (r: seq<Option<string>>)
    ensures |r| == 6 && r[0] == Some(Root)
  {
    [Some(Root), Some(Home), Some(About), a.auth, a.signIn, a.signUp]
  }

  /** Both lists are empty in the source. */
  const ProtectedList: seq<Option<string>> := []
  const AuthenticatedOnlyList: seq<Option<string>> := []

  /** `(list as readonly string[]).includes(pathname)`: exact equality, so an
      `undefined` entry matches no path. */
  predicate Includes(list: seq<Option<string>>, pathname: string) {
    Some(pathname) in list
  }

  predicate IsPublicRoute(a: AuthRoutes, pathname: string) {
    Includes(PublicList(a), pathname)
  }

  predicate IsAlwaysPublicRoute(a: AuthRoutes, pathname: string) {
    Includes(AlwaysPublicList(a), pathname)
  }

  predicate IsProtectedRoute(pathname: string) {
    Includes(ProtectedList, pathname)
  }

  predicate RequiresAuthentication(pathname: string) {
    Includes(AuthenticatedOnlyList, pathname)
  }

  /** Every always-public route is public. */
  lemma AlwaysPublicIsPublic(a: AuthRoutes, pathname: string)
    ensures IsAlwaysPublicRoute(a, pathname) ==> IsPublicRoute(a, pathname)
  {
    if IsAlwaysPublicRoute(a, pathname) {
      var l := AlwaysPublicList(a);
      var j :| 0 <= j < |l| && l[j] == Some(pathname);
      assert PublicList(a)[if j < 2 then j else j + 1] == Some(pathname);
    }
  }

  /** The titles page is public but not always public, as long as none of the
      three missing routes is '/titles' (none is, being `undefined`). */
  lemma TitlesIsPublicOnly(a: AuthRoutes)
    requires a.auth != Some(Titles) && a.signIn != Some(Titles) && a.signUp != Some(Titles)
    ensures IsPublicRoute(a, Titles) && !IsAlwaysPublicRoute(a, Titles)
  {
    assert PublicList(a)[2] == Some(Titles);
  }

  /** Membership is exact, not by prefix: '/titles/1' is not a public route. */
  lemma PublicIsExactMembership()
    ensures !IsPublicRoute(Undefined, "/titles/1") && !IsPublicRoute(Undefined, "")
    ensures IsPublicRoute(Undefined, "/titles")
  {
    assert PublicList(Undefined)[2] == Some(Titles);
  }

  /** No route is protected and none requires authentication. */
  lemma NothingIsProtected(pathname: string)
    ensures !IsProtectedRoute(pathname) && !RequiresAuthentication(pathname)
  {
  }

  // ---------------------------------------------------------------- middleware

  /** `pathname.startsWith(route)`; `startsWith(undefined)` looks for the
      text 'undefined'. */
  predicate StartsWithRoute(pathname: string, route: Option<string>) {
    StartsWith(pathname, route.GetOr("undefined"))
  }

  /** `PUBLIC_ROUTES.some(route => pathname.startsWith(route))`. */
  predicate IsPublicPath(a: AuthRoutes, pathname: string) {
    exists i :: 0 <= i < |PublicList(a)| && StartsWithRoute(pathname, PublicList(a)[i])
  }

  datatype Decision = PassThrough | RedirectTo(route: Option<string>)

  /** The middleware's answer for a request, given whether a session was found. */
  function Middleware(a: AuthRoutes, pathname: string, hasSession: bool): (d: Decision)
    ensures d.RedirectTo? <==> !hasSession && !IsPublicPath(a, pathname)
    ensures d.RedirectTo? ==> d.route == a.signIn
    ensures hasSession ==> d == PassThrough
  {
    if !hasSession && !IsPublicPath(a, pathname) then RedirectTo(a.signIn) else PassThrough
  }

  /** The root route is a prefix of every path that starts with '/', so every
      such path is public and the redirect never fires. */
  lemma RootMakesEverythingPublic(a: AuthRoutes, pathname: string, hasSession: bool)
    requires pathname != [] && pathname[0] == '/'
    ensures IsPublicPath(a, pathname)
    ensures Middleware(a, pathname, hasSession) == PassThrough
  {
    assert StartsWithRoute(pathname, PublicList(a)[0]) by {
      assert pathname[..1] == Root;
    }
  }

  /** Public routes pass the middleware's prefix test. */
  lemma PublicRouteIsPublicPath(a: AuthRoutes, pathname: string)
    requires IsPublicRoute(a, pathname)
    ensures IsPublicPath(a, pathname)
  {
    var l := PublicList(a);
    var j :| 0 <= j < |l| && l[j] == Some(pathname);
    assert StartsWithRoute(pathname, l[j]);
  }
}
