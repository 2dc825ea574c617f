/** The frontend router: the route table with its `meta` flags, how a
    path picks its route, and the `beforeEach` guard that decides between
    letting a navigation through and redirecting it. */
module Router {
  import opened Wrappers
  import opened AuthStore

  /** One segment of a route path: a literal or a `:param`. */
  datatype Segment = Lit(word: string) | Param

  /** A route path: its segments after the leading '/', or the catch-all
      '*'. */
  datatype Pattern = Segments(parts: seq<Segment>) | CatchAll

  datatype Meta = Meta(requiresAuth: bool, guestOnly: bool)

  datatype Route = Route(name: string, pattern: Pattern, meta: Meta)

  const Public := Meta(false, false)
  const GuestOnly := Meta(false, true)
  const Private := Meta(true, false)

  /** The route table, in order. */
  const Routes: seq<Route> := [
    Route("Home", Segments([]), Public),
    Route("Login", Segments([Lit("login")]), GuestOnly),
    Route("Favorites", Segments([Lit("favorites")]), Private),
    Route("FavoriteDetail", Segments([Lit("favorites"), Param]), Private),
    Route("Tags", Segments([Lit("tags")]), Private),
    Route("Search", Segments([Lit("search")]), Private),
    Route("Settings", Segments([Lit("settings")]), Private),
    Route("NotFound", CatchAll, Public)
  ]

  /** Whether the pieces of a path fit the segments one by one: a literal
      fits itself, a parameter any non-empty piece. */
  predicate Fits(parts: seq<Segment>, pieces: seq<string>) {
    |parts| == |pieces|
    && forall i :: 0 <= i < |parts| ==>
         match parts[i]
         case Lit(w) => pieces[i] == w
         case Param => pieces[i] != ""
  }

  /** Whether a path, given as its pieces between the slashes, matches a
      pattern. */
  predicate Matches(p: Pattern, path: seq<string>) {
    match p
    case CatchAll => true
    case Segments(parts) => Fits(parts, path)
  }

  /** The first route of the table the path matches; the catch-all makes
      sure there is one. */
  function MatchedRoute(path: seq<string>): (r: Route)
    ensures r in Routes && Matches(r.pattern, path)
    ensures exists i :: 0 <= i < |Routes| && Routes[i] == r && forall j :: 0 <= j < i ==> !Matches(Routes[j].pattern, path)
  {
    FirstMatch(Routes, path, 0)
  }

  function FirstMatch(routes: seq<Route>, path: seq<string>, from: nat): (r: Route)
    requires from < |routes| && routes[|routes| - 1].pattern == CatchAll
    ensures r in routes && Matches(r.pattern, path)
    ensures exists i :: from <= i < |routes| && routes[i] == r && forall j :: from <= j < i ==> !Matches(routes[j].pattern, path)
    decreases |routes| - from
  {
    if from == |routes| - 1 then routes[from]
    else if Matches(routes[from].pattern, path) then routes[from]
    else FirstMatch(routes, path, from + 1)
  }

  /** `to.matched.some(record => record.meta.requiresAuth)` and its
      `guestOnly` twin; with flat routes `matched` is the one route. */
  predicate RequiresAuth(path: seq<string>) { MatchedRoute(path).meta.requiresAuth }
  predicate IsGuestOnly(path: seq<string>) { MatchedRoute(path).meta.guestOnly }

  /** A one-word pattern fits a one-piece path only when they agree. */
  lemma WordFits(w: string, piece: string)
    ensures Fits([Lit(w)], [piece]) <==> w == piece
  {
    assert [Lit(w)][0] == Lit(w) && [piece][0] == piece;
  }

  /** The literal words of the table differ from one another. */
  lemma DistinctWords()
    ensures "login" != "favorites" && "login" != "tags" && "login" != "search" && "login" != "settings"
    ensures "favorites" != "tags" && "favorites" != "search" && "favorites" != "settings"
    ensures "tags" != "search" && "tags" != "settings" && "search" != "settings"
  {
    assert "login"[0] == 'l' && "favorites"[0] == 'f' && "tags"[0] == 't' && "search"[0] == 's';
    assert "settings"[0] == 's' && "search"[2] == 'a' && "settings"[2] == 't';
  }

  /** The login page is for guests only. */
  lemma LoginGuestOnly()
    ensures MatchedRoute(["login"]).name == "Login" && IsGuestOnly(["login"]) && !RequiresAuth(["login"])
  {
    assert !Matches(Routes[0].pattern, ["login"]);
    assert FirstMatch(Routes, ["login"], 0) == Routes[1];
  }

  /** The favorites list and a favorite's page require authentication. */
  lemma FavoritesPrivate(id: string)
    requires id != ""
    ensures MatchedRoute(["favorites"]).name == "Favorites" && RequiresAuth(["favorites"])
    ensures MatchedRoute(["favorites", id]).name == "FavoriteDetail" && RequiresAuth(["favorites", id])
  {
    DistinctWords();
    WordFits("login", "favorites");
    assert FirstMatch(Routes, ["favorites"], 1) == Routes[2];
    assert FirstMatch(Routes, ["favorites"], 0) == Routes[2];
    assert Matches(Routes[3].pattern, ["favorites", id]);
    assert FirstMatch(Routes, ["favorites", id], 0) == Routes[3];
  }

  /** The tags page requires authentication. */
  lemma TagsPrivate()
    ensures MatchedRoute(["tags"]).name == Routes[4].name && RequiresAuth(["tags"])
  {
    DistinctWords();
    WordFits("login", "tags");
    WordFits("favorites", "tags");
    assert FirstMatch(Routes, ["tags"], 0) == Routes[4];
  }

  /** The search page requires authentication. */
  lemma SearchPrivate()
    ensures MatchedRoute(["search"]).name == Routes[5].name && RequiresAuth(["search"])
  {
    DistinctWords();
    WordFits("login", "search");
    WordFits("favorites", "search");
    WordFits("tags", "search");
    assert FirstMatch(Routes, ["search"], 0) == Routes[5];
  }

  /** The settings page requires authentication. */
  lemma SettingsPrivate()
    ensures MatchedRoute(["settings"]).name == Routes[6].name && RequiresAuth(["settings"])
  {
    DistinctWords();
    WordFits("login", "settings");
    WordFits("favorites", "settings");
    WordFits("tags", "settings");
    WordFits("search", "settings");
    assert FirstMatch(Routes, ["settings"], 0) == Routes[6];
  }

  /** The home page is public. */
  lemma HomePublic()
    ensures MatchedRoute([]).name == "Home" && !RequiresAuth([]) && !IsGuestOnly([])
  {
    assert FirstMatch(Routes, [], 0) == Routes[0];
  }

  /** A path that fits no listed route lands on the public catch-all. */
  lemma UnknownPathPublic(path: seq<string>)
    requires forall j :: 0 <= j < |Routes| - 1 ==> !Matches(Routes[j].pattern, path)
    ensures MatchedRoute(path).name == "NotFound" && !RequiresAuth(path) && !IsGuestOnly(path)
  {
  }

  /** The navigation target: the path it resolved, its full path and
      `query.redirect`. */
  datatype Target = Target(path: seq<string>, fullPath: string, redirect: Option<string>)

  /** What the guard passes to `next`. */
  datatype Decision = Proceed | Redirect(path: string, redirectQuery: Option<string>, replace: bool)

  /** The redirect to the login page, remembering where the user was going. */
  function ToLogin(to: Target): Decision {
    Redirect("/login", Some(to.fullPath), false)
  }

  /** The decision on `meta` and `isAuthenticated`. */
  function Decide(authenticated: bool, to: Target): (d: Decision)
    ensures RequiresAuth(to.path) ==> d == (if authenticated then Proceed else ToLogin(to))
    ensures !RequiresAuth(to.path) && IsGuestOnly(to.path) && authenticated ==>
              d.Redirect? && d.replace && d.redirectQuery.None?
              && d.path == (if to.redirect.Some? && to.redirect.value != "" then to.redirect.value else "/favorites")
    ensures !RequiresAuth(to.path) && !(IsGuestOnly(to.path) && authenticated) ==> d == Proceed
  {
    if RequiresAuth(to.path) then
      if !authenticated then ToLogin(to) else Proceed
    else if IsGuestOnly(to.path) then
      if authenticated then
        Redirect(if to.redirect.Some? && to.redirect.value != "" then to.redirect.value else "/favorites", None, true)
      else Proceed
    else Proceed
  }

  /** A redirect only ever leads to the login page for a page that needs
      authentication, and only away from a guest page otherwise: a guest
      is never sent away from a public or guest page, and a signed-in user
      never from a private or public one. */
  lemma DecideRedirectsOnlyWhenBarred(authenticated: bool, to: Target)
    ensures Decide(authenticated, to).Redirect? <==>
              (RequiresAuth(to.path) && !authenticated) || (!RequiresAuth(to.path) && IsGuestOnly(to.path) && authenticated)
    ensures Decide(authenticated, to).Redirect? && !authenticated ==> Decide(authenticated, to) == ToLogin(to)
  {
  }

  /** The guard's step: its decision and whether it logged out. */
  datatype GuardStep = GuardStep(decision: Decision, logsOut: bool)

  /** The whole guard: `initializeAuth` is dispatched only when the store
      has no token but local storage has one; if it throws, the guard logs
      out and redirects to the login page; otherwise it decides. */
  function Guard(authenticated: bool, storedToken: bool, init: Result<(), string>, to: Target): (g: GuardStep)
    ensures g.logsOut <==> !authenticated && storedToken && init.Err?
    ensures g.logsOut ==> g.decision == ToLogin(to)
    ensures !g.logsOut ==> g.decision == Decide(authenticated, to)
  {
    if !authenticated && storedToken && init.Err? then GuardStep(ToLogin(to), true)
    else GuardStep(Decide(authenticated, to), false)
  }

  /** Whether `initializeAuth` requests the current user: only with a
      token and no user yet. */
  predicate InitializeAuthFetches(s: Snapshot) {
    IsAuthenticated(s) && s.user.None?
  }

  /** The guard dispatches `initializeAuth` only for a store without a
      token, where it requests nothing; so it leaves the store as it is
      and the guard's failure branch is not reached through it. */
  lemma InitializeAuthIdleInGuard(s: Snapshot, storedToken: bool)
    requires !IsAuthenticated(s) && storedToken
    ensures !InitializeAuthFetches(s)
  {
  }

  /** `router.beforeEach` over the auth store: on an `initializeAuth`
      failure the store is logged out; `next` receives the decision. */
  method BeforeEach(store: AuthState, storedToken: bool, init: Result<(), string>, to: Target) returns (d: Decision)
    modifies store
    ensures d == Guard(IsAuthenticated(old(store.State())), storedToken, init, to).decision
    ensures Guard(IsAuthenticated(old(store.State())), storedToken, init, to).logsOut ==> store.State() == LoggedOut
    ensures !Guard(IsAuthenticated(old(store.State())), storedToken, init, to).logsOut ==> store.State() == old(store.State())
  {
    if !IsAuthenticated(store.State()) && storedToken {
      if init.Err? {
        store.Logout();
        return ToLogin(to);
      }
    }
    var authenticated := IsAuthenticated(store.State());
    d := Decide(authenticated, to);
  }
}
