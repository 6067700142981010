/** The page guard run before every page request: a request for a protected
    page without a session cookie is redirected to the login page, which
    records the page asked for; every other request passes. */
module Middleware {
  import opened Strings

  const PublicPaths: seq<string> := ["/", "/login"]

  const ProtectedPaths: seq<string> := ["/dashboard", "/graph", "/kanban", "/analytics", "/settings", "/admin", "/onboarding"]

  /** The session cookie the authentication library sets. */
  const SessionCookie := "better-auth.session_token"

  const LoginPath := "/login"

  /** Let the request through, or send it to `location` with `from` set to the
      path asked for. */
  datatype Decision = Next | Redirect(location: string, from: string)

  /** `protectedPaths.some(path => pathname.startsWith(path))`: a prefix match,
      so `/graphs` or `/administrator` count as protected too. */
  function IsProtectedPath(pathname: string): (b: bool)
    ensures b ==> 6 <= |pathname| && pathname[0] == '/'
    ensures b ==> pathname !in PublicPaths
  {
    assert forall k :: 0 <= k < |ProtectedPaths| ==> |ProtectedPaths[k]| >= 6 && ProtectedPaths[k][1] != 'l';
    exists k :: 0 <= k < |ProtectedPaths| && StartsWith(pathname, ProtectedPaths[k])
  }

  /** The guard's decision for a path and the names of the cookies sent. */
  function Guard(pathname: string, cookies: set<string>): (d: Decision)
    ensures d.Redirect? <==> IsProtectedPath(pathname) && SessionCookie !in cookies
    ensures d.Redirect? ==> d.location == LoginPath && d.from == pathname
  {
    if !IsProtectedPath(pathname) then Next
    else if SessionCookie !in cookies then Redirect(LoginPath, pathname)
    else Next
  }

  /** Protection is closed under extension: whatever follows a protected path
      is protected as well. */
  lemma ProtectedExtends(pathname: string, rest: string)
    requires IsProtectedPath(pathname)
    ensures IsProtectedPath(pathname + rest)
  {
    var k :| 0 <= k < |ProtectedPaths| && StartsWith(pathname, ProtectedPaths[k]);
    assert (pathname + rest)[..|ProtectedPaths[k]|] == pathname[..|ProtectedPaths[k]|];
  }

  /** Neither public page is protected, so the login redirect never loops. */
  lemma PublicPagesPass(cookies: set<string>)
    ensures forall k :: 0 <= k < |PublicPaths| ==> Guard(PublicPaths[k], cookies) == Next
  {
    forall k, j | 0 <= k < |PublicPaths| && 0 <= j < |ProtectedPaths|
      ensures !StartsWith(PublicPaths[k], ProtectedPaths[j])
    {
      assert |ProtectedPaths[j]| >= 2 && ProtectedPaths[j][1] != 'l';
    }
  }

  /** The prefix match reaches beyond the listed pages. */
  lemma PrefixMatchReachesFurther(cookies: set<string>)
    requires SessionCookie !in cookies
    ensures Guard("/graphs", cookies) == Redirect("/login", "/graphs")
    ensures Guard("/administrator", cookies) == Redirect("/login", "/administrator")
  {
    assert IsProtectedPath("/graph") by {
      assert StartsWith("/graph", ProtectedPaths[1]);
    }
    assert IsProtectedPath("/admin") by {
      assert StartsWith("/admin", ProtectedPaths[5]);
    }
    ProtectedExtends("/graph", "s");
    ProtectedExtends("/admin", "istrator");
  }
}
