/** The route guard that runs before a page is served: a decision from the
    request path and the request's cookies to "pass through" or "redirect",
    and the set of paths the guard is configured to run on. */
module Middleware {

  /** `NextResponse.next()` or `NextResponse.redirect(new URL(location, …))`;
      the redirect target is kept as its path. */
  datatype Response = Next | Redirect(location: string)

  const Home := "/"
  const Dashboard := "/dashboard"

  /** The fixed allow-list: exact matches only. */
  predicate IsPublicPath(path: string)
  {
    path == "/" || path == "/register" || path == "/forgot-password"
  }

  /** Signed in means only that a cookie named "user" is present; its value
      is never looked at. */
  predicate IsAuthenticated(cookies: map<string, string>)
  {
    "user" in cookies
  }

  /** `middleware(request)` */
  function Decide(path: string, cookies: map<string, string>): (r: Response)
    ensures r == Redirect(Dashboard) <==> IsPublicPath(path) && IsAuthenticated(cookies)
    ensures r == Redirect(Home) <==> !IsPublicPath(path) && !IsAuthenticated(cookies)
    ensures r == Next <==> IsPublicPath(path) != IsAuthenticated(cookies)
  {
    var isPublicPath := IsPublicPath(path);
    var isAuthenticated := IsAuthenticated(cookies);
    if isPublicPath && isAuthenticated then Redirect(Dashboard)
    else if !isPublicPath && !isAuthenticated then Redirect(Home)
    else Next
  }

  /** No redirect loop: under the same cookies, the page a redirect sends the
      browser to is itself let through. */
  lemma NoRedirectLoop(path: string, cookies: map<string, string>)
    ensures Decide(path, cookies).Redirect? ==> Decide(Decide(path, cookies).location, cookies) == Next
  {
  }

  /** A protected page is only ever served to a request carrying the cookie,
      and a public page only to one without it. */
  lemma PagesServedByAuthentication(path: string, cookies: map<string, string>)
    requires Decide(path, cookies) == Next
    ensures !IsPublicPath(path) ==> IsAuthenticated(cookies)
    ensures IsPublicPath(path) ==> !IsAuthenticated(cookies)
  {
  }

  /** `path` is `base` itself or lies below it: the `base/:path*` form of a
      matcher entry, which also matches zero further segments. */
  predicate InTree(path: string, base: string)
  {
    path == base || (|path| > |base| && path[..|base| + 1] == base + "/")
  }

  /** `config.matcher`: the paths on which the guard runs at all. */
  predicate Matched(path: string)
  {
    || path == "/" || path == "/register"
    || InTree(path, "/dashboard") || InTree(path, "/interview") || InTree(path, "/questionnaire")
  }

  /** What a navigation to `path` gets: the guard's decision on a matched
      path, a pass-through on every other path. */
  function Route(path: string, cookies: map<string, string>): (r: Response)
  {
    if Matched(path) then Decide(path, cookies) else Next
  }

  /** Every page of the three protected trees is served only to a request
      carrying the cookie; without it the browser is sent home. */
  lemma ProtectedTreesNeedCookie(path: string, cookies: map<string, string>)
    requires InTree(path, "/dashboard") || InTree(path, "/interview") || InTree(path, "/questionnaire")
    ensures Route(path, cookies) == if IsAuthenticated(cookies) then Next else Redirect(Home)
  {
    var c := path[1];
    if InTree(path, "/dashboard") {
      if path != "/dashboard" { assert c == path[..11][1] == "/dashboard/"[1]; }
      assert c == 'd';
    } else if InTree(path, "/interview") {
      if path != "/interview" { assert c == path[..11][1] == "/interview/"[1]; }
      assert c == 'i';
    } else {
      if path != "/questionnaire" { assert c == path[..15][1] == "/questionnaire/"[1]; }
      assert c == 'q';
    }
    assert !IsPublicPath(path) by {
      assert "/register"[1] == 'r' && "/forgot-password"[1] == 'f';
    }
  }

  /** The loop freedom carries over to the whole routing step: both redirect
      targets are themselves matched, and the guard lets them through. */
  lemma RouteHasNoRedirectLoop(path: string, cookies: map<string, string>)
    ensures Route(path, cookies).Redirect? ==>
      Matched(Route(path, cookies).location) && Route(Route(path, cookies).location, cookies) == Next
  {
    assert InTree(Dashboard, "/dashboard");
    NoRedirectLoop(path, cookies);
  }

  /** "/forgot-password" is on the allow-list but not in the matcher, so the
      guard never runs there: it is served with or without the cookie. */
  lemma ForgotPasswordNeverGuarded(cookies: map<string, string>)
    ensures IsPublicPath("/forgot-password") && Route("/forgot-password", cookies) == Next
  {
    assert !InTree("/forgot-password", "/dashboard") by {
      assert "/forgot-password"[..11][1] != "/dashboard/"[1];
    }
    assert !InTree("/forgot-password", "/interview") by {
      assert "/forgot-password"[..11][1] != "/interview/"[1];
    }
    assert !InTree("/forgot-password", "/questionnaire") by {
      assert "/forgot-password"[..15][1] != "/questionnaire/"[1];
    }
  }

  /** A protected page without the cookie goes home, the home page with it
      goes to the dashboard, and the sign-up page without it is served. */
  lemma DecisionExamples()
    ensures Decide("/dashboard", map[]) == Redirect("/")
    ensures Decide("/", map["user" := "{}"]) == Redirect("/dashboard")
    ensures Decide("/register", map[]) == Next
  {
  }
}
