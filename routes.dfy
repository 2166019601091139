/**
 * The router's guards: the two public pages (sign in, sign up) send a signed-in user home,
 * every other page sends a signed-out user to sign in, and both wait while the
 * session is still loading.
 */
module Routes {
  import opened Wrappers
  import opened Records
  import opened JsStrings

  const SignIn := "/signin"
  const SignUp := "/signup"
  const Home := "/"

  /** What a guarded route renders. */
  datatype Screen = Loading | Redirect(to: string) | Page(path: string)

  /** ProtectedRoute around the page at `path`. */
  function ProtectedRoute(path: string, user: Option<User>, loading: bool): Screen {
    if loading then Loading else if user.None? then Redirect(SignIn) else Page(path)
  }

  /** PublicRoute around the page at `path`. */
  function PublicRoute(path: string, user: Option<User>, loading: bool): Screen {
    if loading then Loading else if user.Some? then Redirect(Home) else Page(path)
  }

  /**
   * For a known session exactly one of the two guards shows its page, so no visitor sees
   * both a public and a protected page; while loading neither does.
   */
  lemma GuardsComplementary(path: string, other: string, user: Option<User>, loading: bool)
    ensures !loading ==> (ProtectedRoute(path, user, loading).Page? <==> !PublicRoute(other, user, loading).Page?)
    ensures loading ==> !ProtectedRoute(path, user, loading).Page? && !PublicRoute(other, user, loading).Page?
  {
  }

  /** `path` without its trailing slashes. */
  function StripTrailingSlashes(path: string): string {
    if path != [] && path[|path| - 1] == '/' then StripTrailingSlashes(path[..|path| - 1]) else path
  }

  /**
   * Whether the router matches `path` against the sign in or sign up route. A pattern
   * compares without regard to ASCII case and with any number of trailing slashes.
   */
  predicate IsPublicPath(path: string) {
    var key := ToLower(StripTrailingSlashes(path));
    key == SignIn || key == SignUp
  }

  /** The route table: the two public paths, and the catch-all under the protected layout. */
  function Route(path: string, user: Option<User>, loading: bool): Screen {
    if IsPublicPath(path) then PublicRoute(path, user, loading)
    else ProtectedRoute(path, user, loading)
  }

  /** Which paths reach the public pages: any case, any trailing slashes, nothing below them. */
  lemma PublicPaths()
    ensures IsPublicPath("/signin") && IsPublicPath("/signup")
    ensures IsPublicPath("/SignIn") && IsPublicPath("/signup/") && IsPublicPath("/SIGNUP//")
    ensures !IsPublicPath("/") && !IsPublicPath("/signin/x") && !IsPublicPath("signin") && !IsPublicPath("/sign-in")
  {
    assert StripTrailingSlashes("/signup/") == "/signup" by {
      assert "/signup/"[..7] == "/signup";
    }
    assert StripTrailingSlashes("/SIGNUP//") == "/SIGNUP" by {
      assert "/SIGNUP//"[..8] == "/SIGNUP/";
      assert "/SIGNUP/"[..7] == "/SIGNUP";
    }
    assert StripTrailingSlashes("/") == "" by {
      assert "/"[..0] == "";
    }
  }

  /** A trailing slash never changes which guard a path falls under. */
  lemma TrailingSlashKeepsGuard(path: string, user: Option<User>, loading: bool)
    ensures IsPublicPath(path + "/") <==> IsPublicPath(path)
    ensures Route(path + "/", user, loading).Page? <==> Route(path, user, loading).Page?
  {
    assert (path + "/")[..|path|] == path;
  }

  /**
   * Every page other than sign in and sign up is guarded: it is never shown to a signed-out
   * user, and the public pages are never shown to a signed-in one.
   */
  lemma GuardsCoverEveryPath(path: string, user: Option<User>, loading: bool)
    ensures Route(path, user, loading).Page? <==>
      !loading && (if IsPublicPath(path) then user.None? else user.Some?)
    ensures Route(path, user, loading).Page? ==> Route(path, user, loading).path == path
  {
  }

  /** Once the session is known, one redirect lands on a page: the guards never send a visitor around in a loop. */
  lemma RedirectLandsOnPage(path: string, user: Option<User>)
    ensures Route(path, user, false).Redirect? ==> Route(Route(path, user, false).to, user, false).Page?
    ensures Route(path, user, false).Redirect? ==>
      Route(path, user, false).to == (if user.Some? then "/" else "/signin")
  {
    PublicPaths();
  }

  /** While loading, every path shows the spinner, whoever is signed in. */
  lemma LoadingHidesEverything(path: string, user: Option<User>)
    ensures Route(path, user, true) == Loading
  {
  }
}
