/** frontend/src/App.tsx: the route table and the gate that sends a visitor without a
    stored token to the log-in page. */
module App {
  import opened Wrappers
  import Board

  /** The page each route shows. */
  datatype Page = LoginPage | SignupPage | BoardPage | DashboardPage | CalendarPage | ProfilePage | LogsPage

  /** What the router produces: the page, or a redirect. */
  datatype View = Render(page: Page) | Redirect(to: string)

  /** One `<Route>`: its path, its page and whether it sits inside `ProtectedRoute`. */
  datatype Route = Route(path: string, page: Page, gated: bool)

  const LoginPath := "/login"

  const Routes: seq<Route> := [
    Route("/login", LoginPage, false),
    Route("/signup", SignupPage, false),
    Route("/", BoardPage, true),
    Route("/dashboard", DashboardPage, true),
    Route("/calendar", CalendarPage, true),
    Route("/profile", ProfilePage, true),
    Route("/logs", LogsPage, true)
  ]

  /** `ProtectedRoute`: `localStorage.getItem('token')` is None when absent. A missing or
      empty token redirects to the log-in page; any other token, whatever it holds,
      renders the page. */
  function Gate(token: Option<string>, page: Page): (v: View)
    ensures v.Redirect? <==> token.None? || token == Some("")
    ensures v.Redirect? ==> v.to == LoginPath
    ensures v.Render? ==> v.page == page
  {
    if token.None? || token.value == "" then Redirect(LoginPath) else Render(page)
  }

  /** The first route whose path is `path`. */
  function Lookup(routes: seq<Route>, path: string): (r: Option<Route>)
    ensures r.Some? ==> r.value in routes && r.value.path == path
    ensures r.None? ==> forall i :: 0 <= i < |routes| ==> routes[i].path != path
  {
    if routes == [] then None
    else if routes[0].path == path then Some(routes[0])
    else Lookup(routes[1..], path)
  }

  /** `path` without its trailing slashes. */
  function StripSlashes(path: string): string {
    if |path| > 0 && path[|path| - 1] == '/' then StripSlashes(path[..|path| - 1]) else path
  }

  /** The form in which React Router compares a path with a route's: letter case is
      ignored (no route sets `caseSensitive`) and trailing slashes are dropped; the
      root path `/` is what remains of a path made of slashes only. */
  function Normalize(path: string): string {
    var p := StripSlashes(Board.ToLower(path));
    if p == "" then "/" else p
  }

  /** What the app shows at `path`: None when no route matches. */
  function Navigate(path: string, token: Option<string>): Option<View> {
    match Lookup(Routes, Normalize(path))
    case None => None
    case Some(route) => Some(if route.gated then Gate(token, route.page) else Render(route.page))
  }

  /** A path with no capital letter and no trailing slash is already normalised. */
  lemma NormalFixed(path: string)
    requires path == "/" || (path != "" && path[|path| - 1] != '/')
    requires forall i :: 0 <= i < |path| ==> !('A' <= path[i] <= 'Z')
    ensures Normalize(path) == path
  {
    assert Board.ToLower(path) == path;
    if path == "/" {
      assert path[..|path| - 1] == "";
      assert StripSlashes(path) == StripSlashes("");
    }
  }

  /** Every route's own path is in normal form. */
  lemma RoutesNormal()
    ensures forall i :: 0 <= i < |Routes| ==> Normalize(Routes[i].path) == Routes[i].path
  {
    forall i | 0 <= i < |Routes| ensures Normalize(Routes[i].path) == Routes[i].path {
      NormalFixed(Routes[i].path);
    }
  }

  /** The two authentication pages are shown whatever the token. */
  lemma PublicPagesNeverGated(token: Option<string>)
    ensures Navigate("/login", token) == Some(Render(LoginPage))
    ensures Navigate("/signup", token) == Some(Render(SignupPage))
  {
    RoutesNormal();
    assert Routes[0].path == "/login" && Routes[1].path == "/signup";
  }

  /** In a table whose earlier paths all differ from route `i`'s, looking up that path
      finds route `i`. */
  lemma {:induction false} LookupFinds(routes: seq<Route>, i: nat)
    requires i < |routes|
    requires forall j :: 0 <= j < i ==> routes[j].path != routes[i].path
    ensures Lookup(routes, routes[i].path) == Some(routes[i])
  {
    if i > 0 {
      assert routes[1..][i - 1] == routes[i];
      LookupFinds(routes[1..], i - 1);
    }
  }

  /** No two routes share a path: a fact about the route table, checked by unfolding. */
  lemma PathsDistinct()
    ensures forall j, k :: 0 <= j < k < |Routes| ==> Routes[j].path != Routes[k].path
  {
  }

  /** The five application pages need a non-empty token: without one each redirects to
      `/login`; with one each renders its own page. */
  lemma AppPagesGated(token: Option<string>)
    ensures forall i :: 2 <= i < |Routes| ==> Routes[i].gated
    ensures forall i :: 2 <= i < |Routes| ==>
              Navigate(Routes[i].path, token) ==
                (if token.None? || token == Some("") then Some(Redirect(LoginPath))
                 else Some(Render(Routes[i].page)))
  {
    PathsDistinct();
    RoutesNormal();
    forall i | 2 <= i < |Routes|
      ensures Lookup(Routes, Routes[i].path) == Some(Routes[i])
    {
      LookupFinds(Routes, i);
    }
  }

  /** Every redirect goes to `/login` and happens only without a usable token; the
      token's content is never examined beyond being non-empty. */
  lemma RedirectOnlyWithoutToken(path: string, token: Option<string>)
    ensures Navigate(path, token).Some? && Navigate(path, token).value.Redirect? ==>
              Navigate(path, token).value.to == LoginPath && (token.None? || token == Some(""))
    ensures forall t, u :: t != "" && u != "" ==> Navigate(path, Some(t)) == Navigate(path, Some(u))
  {
  }

  /** Matching ignores a trailing slash and the case of ASCII letters. */
  lemma {:induction false} MatchingIsLoose(path: string, token: Option<string>)
    ensures Navigate(path + "/", token) == Navigate(path, token)
    ensures Navigate(Board.ToLower(path), token) == Navigate(path, token)
  {
    assert Board.ToLower(path + "/") == Board.ToLower(path) + "/";
    var l := Board.ToLower(path) + "/";
    assert l[..|l| - 1] == Board.ToLower(path);
    assert Board.ToLower(Board.ToLower(path)) == Board.ToLower(path);
  }

  /** `/Dashboard` shows the dashboard to a signed-in visitor. */
  lemma DashboardAnyCase()
    ensures Navigate("/Dashboard", Some("t")) == Some(Render(DashboardPage))
  {
    var d := "/Dashboard";
    assert Board.ToLower(d)[1] == 'd';
    assert forall i :: 0 <= i < |d| && i != 1 ==> Board.ToLower(d)[i] == d[i];
    assert Board.ToLower(d) == Routes[3].path;
    MatchingIsLoose(d, Some("t"));
    AppPagesGated(Some("t"));
  }

  /** `/logs/` sends a visitor without a token to the log-in page. */
  lemma LogsTrailingSlash()
    ensures Navigate("/logs/", None) == Some(Redirect(LoginPath))
  {
    assert Routes[6].path + "/" == "/logs/";
    MatchingIsLoose(Routes[6].path, None);
    AppPagesGated(None);
  }
}
