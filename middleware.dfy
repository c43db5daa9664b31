/**
 * The route guard (src/middleware.ts): from the request path and whether a
 * member is signed in, decide to let the request through, send it to the
 * sign-in page with the original path as `redirect`, or send it home.
 */
module Middleware {

  import opened Strings

  const PublicPaths: seq<string> := ["/login", "/login/signup"]
  const AdminPaths: seq<string> := ["/suggestion-box/admin"]

  datatype Decision =
    | PassThrough
    | RedirectLogin(redirect: string)  // to `/login?redirect=<redirect>`
    | RedirectHome                     // to `/`

  /** `paths.some((p) => pathname.startsWith(p))`. */
  function SomePrefix(paths: seq<string>, pathname: string): (b: bool)
    ensures b <==> exists i :: 0 <= i < |paths| && StartsWith(pathname, paths[i])
  {
    if paths == [] then false
    else StartsWith(pathname, paths[0]) || SomePrefix(paths[1..], pathname)
  }

  predicate IsPublicPath(pathname: string) {
    SomePrefix(PublicPaths, pathname)
  }

  predicate IsAdminPath(pathname: string) {
    SomePrefix(AdminPaths, pathname)
  }

  /** `middleware`: the admin check first, then the sign-in check, then the signed-in visit to `/login`. */
  function Decide(pathname: string, userPresent: bool): (d: Decision)
    ensures d.RedirectLogin? <==> !IsAdminPath(pathname) && !IsPublicPath(pathname) && !userPresent
    ensures d.RedirectLogin? ==> d.redirect == pathname
    ensures d == RedirectHome <==> userPresent && pathname == "/login"
  {
    if IsAdminPath(pathname) then PassThrough
    else if !userPresent && !IsPublicPath(pathname) then RedirectLogin(pathname)
    else if userPresent && pathname == "/login" then RedirectHome
    else PassThrough
  }

  /** A prefix of a prefix is a prefix. */
  lemma PrefixTransitive(s: string, p: string, q: string)
    requires StartsWith(s, p) && StartsWith(p, q)
    ensures StartsWith(s, q)
  {
    assert s[..|q|] == s[..|p|][..|q|];
  }

  /**
   * A path is public exactly when it starts with "/login": the entry
   * "/login/signup" adds nothing under prefix matching, and "/loginx" is
   * public too.
   */
  lemma {:induction false} PublicIffLoginPrefix(pathname: string)
    ensures IsPublicPath(pathname) <==> StartsWith(pathname, "/login")
    ensures IsPublicPath("/loginx") && IsPublicPath("/login/signup")
  {
    if StartsWith(pathname, "/login/signup") {
      PrefixTransitive(pathname, "/login/signup", "/login");
    }
    assert StartsWith("/loginx", PublicPaths[0]);
    assert StartsWith("/login/signup", PublicPaths[0]);
  }

  /** Every path under "/suggestion-box/admin" passes, signed in or not; it is never redirected. */
  lemma {:induction false} AdminPathsPass(pathname: string, userPresent: bool)
    requires StartsWith(pathname, "/suggestion-box/admin")
    ensures Decide(pathname, userPresent) == PassThrough
  {
    assert StartsWith(pathname, AdminPaths[0]);
  }

  /** A signed-in member on "/login" goes home; on any other "/login…" path the request passes. */
  lemma {:induction false} SignedInOnLoginPaths(pathname: string)
    requires StartsWith(pathname, "/login")
    ensures Decide(pathname, true) == if pathname == "/login" then RedirectHome else PassThrough
  {
    PublicIffLoginPrefix(pathname);
  }

  /** Without a member, a path outside "/login…" and the admin area is sent to sign in, with itself as `redirect`. */
  lemma {:induction false} AnonymousMemberPathRedirects(pathname: string)
    requires !StartsWith(pathname, "/login") && !StartsWith(pathname, "/suggestion-box/admin")
    ensures Decide(pathname, false) == RedirectLogin(pathname)
  {
    PublicIffLoginPrefix(pathname);
  }
}
