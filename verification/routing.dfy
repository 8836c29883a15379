/**
 * Path-based routing: the middleware that sends signed-out visitors to
 * sign-in and signed-in visitors away from the auth pages, and the
 * navigation shell that hides itself on the auth pages and the home page
 * and reacts to the user request.
 */
module Routing {
  import opened Wrappers
  import opened Js

  const SignInPath: string := "/auth/signin"
  const DashboardPath: string := "/dashboard"

  /** `/auth…` and `/login…`, by plain prefix, so `/authors` counts too. */
  predicate IsAuthPage(p: string) {
    StartsWith(p, "/auth") || StartsWith(p, "/login")
  }

  /** Not an API path, not an auth page and not the home page. */
  predicate IsProtectedPage(p: string) {
    !StartsWith(p, "/api") && !IsAuthPage(p) && p != "/"
  }

  /** `root` itself or any path below it: what the matcher pattern `root/:path*` accepts. */
  predicate UnderSegment(p: string, root: string) {
    p == root || StartsWith(p, root + "/")
  }

  /** The paths the middleware runs on. */
  predicate Matched(p: string) {
    UnderSegment(p, "/dashboard") || UnderSegment(p, "/auth") || UnderSegment(p, "/login")
  }

  datatype Verdict = Next | RedirectTo(path: string)

  /** The middleware body: a missing session cookie on a protected page goes to sign-in, a present one on an auth page to the dashboard. */
  function Decide(hasCookie: bool, p: string): (v: Verdict)
    ensures v == RedirectTo(SignInPath) <==> !hasCookie && IsProtectedPage(p)
    ensures v == RedirectTo(DashboardPath) <==> hasCookie && IsAuthPage(p)
    ensures v.Next? <==> (hasCookie ==> !IsAuthPage(p)) && (!hasCookie ==> !IsProtectedPage(p))
  {
    if !hasCookie && IsProtectedPage(p) then RedirectTo(SignInPath)
    else if hasCookie && IsAuthPage(p) then RedirectTo(DashboardPath)
    else Next
  }

  lemma DashboardPrefix(p: string)
    requires StartsWith(p, "/dashboard")
    ensures IsProtectedPage(p)
  {
    assert p[1] == "/dashboard"[1];
  }

  lemma AuthPrefix(p: string)
    requires UnderSegment(p, "/auth") || UnderSegment(p, "/login")
    ensures IsAuthPage(p)
  {
    if StartsWith(p, "/auth/") {
      assert p[..5] == p[..6][..5];
    }
    if StartsWith(p, "/login/") {
      assert p[..6] == p[..7][..6];
    }
  }

  /**
   * The middleware as deployed: on the dashboard a visitor without a session
   * cookie is sent to sign-in, on the auth and login pages a visitor with one
   * is sent to the dashboard, and every other path passes untouched.
   */
  function Middleware(hasCookie: bool, p: string): (v: Verdict)
    ensures UnderSegment(p, "/dashboard") ==> (v == if hasCookie then Next else RedirectTo(SignInPath))
    ensures (UnderSegment(p, "/auth") || UnderSegment(p, "/login")) ==> (v == if hasCookie then RedirectTo(DashboardPath) else Next)
    ensures !Matched(p) ==> v == Next
  {
    if UnderSegment(p, "/dashboard") then
      DashboardPrefix(p);
      Decide(hasCookie, p)
    else if UnderSegment(p, "/auth") || UnderSegment(p, "/login") then
      AuthPrefix(p);
      Decide(hasCookie, p)
    else Next
  }

  /** A redirect never leads to another redirect for the same visitor. */
  lemma NoRedirectLoop(hasCookie: bool, p: string)
    ensures Middleware(hasCookie, p).RedirectTo? ==> Middleware(hasCookie, Middleware(hasCookie, p).path) == Next
  {
    if Middleware(hasCookie, p).RedirectTo? {
      var t := Middleware(hasCookie, p).path;
      if hasCookie {
        assert t == DashboardPath;
        assert !IsAuthPage(t) by {
          assert t[1] == 'd';
        }
      } else {
        assert t == SignInPath;
        assert UnderSegment(t, "/auth") by {
          assert t[..6] == "/auth/";
        }
      }
    }
  }

  /**
   * Only the matched paths are guarded: `/authors` counts as an auth page
   * but is not matched, and a protected board page is not matched either,
   * so the middleware lets both through.
   */
  lemma MatcherNarrowsGuard()
    ensures IsAuthPage("/authors") && Decide(true, "/authors") == RedirectTo(DashboardPath)
    ensures Middleware(true, "/authors") == Next
    ensures IsProtectedPage("/boards/b1") && Middleware(false, "/boards/b1") == Next
  {
    assert "/authors"[..5] == "/auth";
    assert !UnderSegment("/authors", "/auth") by {
      assert "/authors"[..6] != "/auth/" by { assert "/authors"[5] == 'o'; }
    }
    assert !UnderSegment("/authors", "/dashboard") by { assert "/authors"[1] == 'a'; }
    assert !UnderSegment("/authors", "/login") by { assert "/authors"[1] == 'a'; }
    var b := "/boards/b1";
    assert !IsAuthPage(b) && !StartsWith(b, "/api") by { assert b[1] == 'b'; }
    assert !Matched(b) by { assert b[1] == 'b'; }
  }

  // ---------------------------------------------------------------------
  // The navigation shell

  /** The `/api/user` request as the shell sees it. */
  datatype Fetched<U> = Unauthorized401 | FetchedOk(user: U) | FetchedNotOk | FetchThrew

  /** The shell's state: the route it pushed, if any, the user, and the loading flag. */
  datatype NavState<U> = NavState(pushed: Option<string>, user: Option<U>, loading: bool)

  /**
   * `fetchUserData`: a 401 pushes sign-in unless already on an auth page; an
   * OK reply stores the user; anything else is ignored. Loading always ends.
   */
  function NavFetch<U>(p: string, resp: Fetched<U>): (r: NavState<U>)
    ensures !r.loading
    ensures r.pushed.Some? <==> resp.Unauthorized401? && !IsAuthPage(p)
    ensures r.pushed.Some? ==> r.pushed.value == SignInPath
    ensures r.user.Some? <==> resp.FetchedOk?
    ensures resp.FetchedOk? ==> r.user.value == resp.user
  {
    match resp
    case Unauthorized401 => NavState(if IsAuthPage(p) then None else Some(SignInPath), None, false)
    case FetchedOk(u) => NavState(None, Some(u), false)
    case _ => NavState(None, None, false)
  }

  /** The shell is left out on the auth pages and on the home page. */
  predicate HideChrome(p: string) {
    IsAuthPage(p) || p == "/"
  }

  datatype View<U> = Bare | Loader | Chrome(user: Option<U>)

  /** What the shell renders: the page alone where it hides, the loader while loading, else the header and the page. */
  function NavView<U>(p: string, s: NavState<U>): (v: View<U>)
    ensures v.Bare? <==> HideChrome(p)
    ensures v.Loader? <==> !HideChrome(p) && s.loading
    ensures v.Chrome? ==> v.user == s.user
  {
    if HideChrome(p) then Bare else if s.loading then Loader else Chrome(s.user)
  }

  /** Once the request settles the loader is gone, whatever the outcome. */
  lemma LoaderEnds<U>(p: string, resp: Fetched<U>)
    ensures !NavView(p, NavFetch(p, resp)).Loader?
    ensures !HideChrome(p) && resp.FetchedOk? ==> NavView(p, NavFetch(p, resp)) == Chrome(Some(resp.user))
  {
  }

  /**
   * The two layers disagree on the home page: the middleware lets a visitor
   * without a cookie stay on `/` and the shell hides itself there, but a 401
   * from the user request still pushes sign-in.
   */
  lemma HomeStillRedirects<U>()
    ensures Middleware(false, "/") == Next
    ensures HideChrome("/")
    ensures NavFetch<U>("/", Unauthorized401).pushed == Some(SignInPath)
  {
    assert !IsAuthPage("/");
    assert !Matched("/") by { assert |"/"| == 1; }
  }
}
