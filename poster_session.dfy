/**
 * The anonymous poster id (src/lib/posterSession.ts): read the
 * `suggestion_poster_id` cookie, or issue a new id and store it.
 */
module PosterSession {

  import opened Wrappers
  import opened Cookies
  import opened Admin

  const PosterCookie: string := "suggestion_poster_id"
  /** One year, in seconds. */
  const PosterMaxAge: int := 60 * 60 * 24 * 365

  /** The attributes the poster cookie is written with. */
  function PosterCookieOptions(env: Env): (o: CookieOptions)
    ensures o.httpOnly && o.sameSite == Lax && o.path == "/"
    ensures o.maxAge == 31536000
    ensures o.secure <==> IsProduction(env)
  {
    CookieOptions(httpOnly := true, secure := IsProduction(env), sameSite := Lax,
                  maxAge := PosterMaxAge, path := "/")
  }

  /** The id the jar already holds: a present, non-empty cookie value (`""` is falsy). */
  predicate HasPosterId(cookies: CookieStore)
    reads cookies
  {
    cookies.Get(PosterCookie).Some? && cookies.Get(PosterCookie).value != ""
  }

  /**
   * `getPosterId`: returns the stored id and writes nothing, or stores the
   * fresh id (`randomUUID()`, never empty) and returns it. Afterwards the
   * cookie holds the returned id, and no other cookie has changed.
   */
  method GetPosterId(env: Env, cookies: CookieStore, freshId: string) returns (id: string)
    requires freshId != ""
    modifies cookies
    ensures id != "" && cookies.Get(PosterCookie) == Some(id) && HasPosterId(cookies)
    ensures old(HasPosterId(cookies)) ==> id == old(cookies.Get(PosterCookie)).value && cookies.jar == old(cookies.jar)
    ensures !old(HasPosterId(cookies)) ==>
              id == freshId && cookies.jar == old(cookies.jar)[PosterCookie := Cookie(freshId, Some(PosterCookieOptions(env)))]
    ensures forall name :: name != PosterCookie ==> cookies.Get(name) == old(cookies.Get(name))
  {
    id := cookies.Get(PosterCookie).GetOr("");
    if id == "" {
      id := freshId;
      cookies.Set(PosterCookie, id, PosterCookieOptions(env));
    }
  }

  /** Get-or-create is idempotent: a second call returns the same id and writes nothing. */
  method GetPosterIdTwice(env: Env, cookies: CookieStore, freshId: string, laterFreshId: string)
    returns (first: string, second: string)
    requires freshId != "" && laterFreshId != ""
    modifies cookies
    ensures first == second
    ensures cookies.jar == if old(HasPosterId(cookies)) then old(cookies.jar)
                           else old(cookies.jar)[PosterCookie := Cookie(freshId, Some(PosterCookieOptions(env)))]
  {
    first := GetPosterId(env, cookies, freshId);
    ghost var afterFirst := cookies.jar;
    second := GetPosterId(env, cookies, laterFreshId);
    assert cookies.jar == afterFirst;
  }
}
