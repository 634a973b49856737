/** The Next.js middleware: it reads the session cookie, classifies the path
    and redirects visitors away from pages they should not see. */
module Middleware {
  import opened Wrappers
  import opened Text

  /** The cookie names tried in turn; the first that is present decides. */
  const SessionCookieNames: seq<string> := [
    "better-auth.session_token", "better-auth.session-token", "auth.session_token",
    "session_token", "better_auth_session", "session"]

  const Dashboard: string := "/dashboard"
  const ProtectedRoutes: seq<string> := [Dashboard, "/dashboard/chat", "/dashboard/documents", "/dashboard/account"]
  const AuthRoutes: seq<string> := ["/login", "/signup"]
  const LoginPage: string := "/login"
  const ChatPage: string := "/dashboard/chat"

  datatype Decision = Next | Redirect(location: string)

  /** `cookies.get(a) || cookies.get(b) || ...`: the value of the first
      cookie present, whatever that value is. */
  function SessionCookie(names: seq<string>, cookies: map<string, string>): (r: Option<string>)
    ensures r.None? <==> forall n :: n in names ==> n !in cookies
    ensures r.Some? ==> exists k :: (0 <= k < |names| && names[k] in cookies && r.value == cookies[names[k]]
      && forall j :: 0 <= j < k ==> names[j] !in cookies)
    decreases |names|
  {
    if names == [] then None
    else if names[0] in cookies then Some(cookies[names[0]])
    else
      var r := SessionCookie(names[1..], cookies);
      assert forall n :: n in names ==> n == names[0] || n in names[1..];
      if r.Some? then
        var k :| 0 <= k < |names[1..]| && names[1..][k] in cookies && r.value == cookies[names[1..][k]]
          && forall j :: 0 <= j < k ==> names[1..][j] !in cookies;
        assert names[k + 1] == names[1..][k];
        assert forall j :: 1 <= j < k + 1 ==> names[j] == names[1..][j - 1];
        r
      else r
  }

  /** `!!sessionToken?.value`. */
  predicate IsAuthenticated(cookies: map<string, string>) {
    var c := SessionCookie(SessionCookieNames, cookies);
    c.Some? && c.value != []
  }

  /** The first cookie present decides alone: an empty one hides any valid
      cookie further down the list. */
  lemma FirstCookieDecides(cookies: map<string, string>, k: nat)
    requires k < |SessionCookieNames| && SessionCookieNames[k] in cookies
    requires forall j :: 0 <= j < k ==> SessionCookieNames[j] !in cookies
    ensures IsAuthenticated(cookies) <==> cookies[SessionCookieNames[k]] != []
  {
    var c := SessionCookie(SessionCookieNames, cookies);
    var i :| 0 <= i < |SessionCookieNames| && SessionCookieNames[i] in cookies && c.value == cookies[SessionCookieNames[i]]
      && forall j :: 0 <= j < i ==> SessionCookieNames[j] !in cookies;
    if i != k {
      assert false;
    }
  }

  /** `routes.some(route => pathname.startsWith(route))`. */
  predicate StartsWithAny(path: string, routes: seq<string>) {
    exists route :: route in routes && StartsWith(path, route)
  }

  predicate IsProtected(path: string) {
    StartsWithAny(path, ProtectedRoutes)
  }

  predicate IsAuthRoute(path: string) {
    StartsWithAny(path, AuthRoutes)
  }

  /** `middleware`. */
  function Decide(path: string, cookies: map<string, string>): Decision {
    if IsProtected(path) && !IsAuthenticated(cookies) then Redirect(LoginPage)
    else if IsAuthRoute(path) && IsAuthenticated(cookies) then Redirect(ChatPage)
    else Next
  }

  lemma StartsWithTrans(s: string, a: string, b: string)
    requires StartsWith(s, a) && StartsWith(a, b)
    ensures StartsWith(s, b)
  {
    assert s[..|b|] == s[..|a|][..|b|];
  }

  /** The three sub-routes add nothing: a path is protected exactly when it
      starts with "/dashboard". */
  lemma ProtectedIsDashboard(path: string)
    ensures IsProtected(path) <==> StartsWith(path, Dashboard)
  {
    if IsProtected(path) {
      var route :| route in ProtectedRoutes && StartsWith(path, route);
      assert StartsWith(route, Dashboard);
      StartsWithTrans(path, route, Dashboard);
    }
    if StartsWith(path, Dashboard) {
      assert Dashboard in ProtectedRoutes;
    }
  }

  /** No path is both protected and an authentication page. */
  lemma RoutesDisjoint(path: string)
    ensures !(IsProtected(path) && IsAuthRoute(path))
  {
    ProtectedIsDashboard(path);
    if StartsWith(path, Dashboard) {
      assert path[1] == 'd';
      forall route | route in AuthRoutes
        ensures !StartsWith(path, route)
      {
        assert route[1] != 'd';
      }
    }
  }

  /** A visitor without a session is sent to the login page from every
      protected page, a signed-in user to the chat from the login and signup
      pages, and every other request passes. */
  lemma DecideCases(path: string, cookies: map<string, string>)
    ensures Decide(path, cookies) == Redirect(LoginPage) <==> StartsWith(path, Dashboard) && !IsAuthenticated(cookies)
    ensures Decide(path, cookies) == Redirect(ChatPage) <==> IsAuthRoute(path) && IsAuthenticated(cookies)
    ensures Decide(path, cookies) == Next <==>
      !(StartsWith(path, Dashboard) && !IsAuthenticated(cookies)) && !(IsAuthRoute(path) && IsAuthenticated(cookies))
  {
    ProtectedIsDashboard(path);
    assert LoginPage != ChatPage;
  }
}
