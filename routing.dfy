/**
 * The route table, the guard in front of the identity-requiring pages, and the login
 * page's return to the page the guard turned the visitor away from.
 */
module Routing {
  import opened Wrappers
  import opened Rows

  /** A router location; only the path name matters here. */
  datatype Location = Location(pathname: string)

  const LoginPath: string := "/login"
  const HomePath: string := "/"
  /** The recipe list, where the create and delete handlers navigate afterwards. */
  const RecipesPath: string := "/recipes"

  /** What the guard renders. */
  datatype GuardView =
    | Spinner
    | RedirectTo(path: string, from: Location, replace: bool)
    | RenderChild

  /**
   * `ProtectedRoute`: a spinner while the session is still being resolved (even if a
   * user is already known); then, without a user, a history-replacing redirect to the
   * login page that carries the requested location; otherwise the child route.
   */
  function Guard(loading: bool, user: Option<UserId>, location: Location): (v: GuardView)
    ensures v.Spinner? <==> loading
    ensures v.RedirectTo? <==> !loading && user.None?
    ensures v.RenderChild? <==> !loading && user.Some?
    ensures v.RedirectTo? ==> v.path == LoginPath && v.from == location && v.replace
  {
    if loading then Spinner
    else if user.None? then RedirectTo(LoginPath, location, true)
    else RenderChild
  }

  /** `location.state?.from?.pathname || "/"`: where a successful login goes. */
  function LoginReturnPath(state: Option<Location>): (path: string)
    ensures path != ""
    ensures state.Some? && state.value.pathname != "" ==> path == state.value.pathname
    ensures state.None? || state.value.pathname == "" ==> path == HomePath
  {
    if state.Some? && state.value.pathname != "" then state.value.pathname else HomePath
  }

  datatype Page =
    | HomePage | LoginPage | RegisterPage | RecipesPage | RecipeDetailPage(id: string)
    | CreateRecipePage | PlannerPage | ProfilePage | NoPage

  /** A single path segment: non-empty, without a slash. */
  predicate IsSegment(s: string) {
    s != "" && forall i :: 0 <= i < |s| ==> s[i] != '/'
  }

  const DetailPrefix: string := "/recipes/"

  /**
   * The route table, matched on the exact path: each fixed page is reached by its own
   * path and no other, and `/recipes/:id` by the prefix followed by one segment.
   */
  function Resolve(path: string): (page: Page)
    ensures page == HomePage <==> path == "/"
    ensures page == LoginPage <==> path == LoginPath
    ensures page == RegisterPage <==> path == "/register"
    ensures page == RecipesPage <==> path == RecipesPath
    ensures page == CreateRecipePage <==> path == "/create-recipe"
    ensures page == PlannerPage <==> path == "/planner"
    ensures page == ProfilePage <==> path == "/profile"
    ensures page.RecipeDetailPage? ==> path == DetailPrefix + page.id && IsSegment(page.id)
  {
    assert path in {"/create-recipe", "/planner", "/profile"} ==> !(DetailPrefix <= path) by {
      if path in {"/create-recipe", "/planner", "/profile"} {
        assert path[1] != DetailPrefix[1];
      }
    }
    if path == "/" then HomePage
    else if path == "/login" then LoginPage
    else if path == "/register" then RegisterPage
    else if path == RecipesPath then RecipesPage
    else if DetailPrefix <= path && IsSegment(path[|DetailPrefix|..]) then RecipeDetailPage(path[|DetailPrefix|..])
    else if path == "/create-recipe" then CreateRecipePage
    else if path == "/planner" then PlannerPage
    else if path == "/profile" then ProfilePage
    else NoPage
  }

  /** The pages nested under the guard. */
  predicate Guarded(p: Page) {
    p.CreateRecipePage? || p.PlannerPage? || p.ProfilePage?
  }

  /** What the app shows for a path, given the session. */
  datatype Screen = Loading | Redirect(to: string, from: Location, replace: bool) | Show(page: Page)

  /**
   * A public page shows whatever the session; a guarded one waits while loading,
   * redirects when signed out and shows only with a resolved user.
   */
  function Dispatch(path: string, loading: bool, user: Option<UserId>): (screen: Screen)
    ensures !Guarded(Resolve(path)) ==> screen == Show(Resolve(path))
    ensures Guarded(Resolve(path)) ==> (screen == Loading <==> loading)
    ensures Guarded(Resolve(path)) ==> (screen.Redirect? <==> !loading && user.None?)
    ensures Guarded(Resolve(path)) && screen.Show? ==> !loading && user.Some? && screen.page == Resolve(path)
  {
    var page := Resolve(path);
    if !Guarded(page) then Show(page)
    else match Guard(loading, user, Location(path))
      case Spinner => Loading
      case RedirectTo(to, from, replace) => Redirect(to, from, replace)
      case RenderChild => Show(page)
  }

  /** Exactly `/create-recipe`, `/planner` and `/profile` sit behind the guard. */
  lemma GuardedPaths(path: string)
    ensures Guarded(Resolve(path)) <==> path == "/create-recipe" || path == "/planner" || path == "/profile"
  {
    if path == "/create-recipe" || path == "/planner" || path == "/profile" {
      assert path[1] != DetailPrefix[1];
    }
  }

  /** Every recipe id that is one path segment opens that recipe's detail page. */
  lemma DetailPathRoundTrip(id: string)
    requires IsSegment(id)
    ensures Resolve(DetailPrefix + id) == RecipeDetailPage(id)
  {
    var path := DetailPrefix + id;
    assert path[..|DetailPrefix|] == DetailPrefix;
    assert path[|DetailPrefix|..] == id;
    assert path[8] == '/';
  }

  /**
   * Turned away from a guarded page, the visitor lands on the login page, which is not
   * guarded, and a successful login there returns to the page first asked for.
   */
  lemma LoginReturnsToGuardedPage(path: string, user: Option<UserId>)
    requires Guarded(Resolve(path)) && user.None?
    ensures Dispatch(path, false, user) == Redirect(LoginPath, Location(path), true)
    ensures Dispatch(LoginPath, false, user) == Show(LoginPage)
    ensures LoginReturnPath(Some(Dispatch(path, false, user).from)) == path
  {
    GuardedPaths(path);
  }
}
