/**
 * The request's cookie jar as `next/headers` exposes it to server code:
 * `get(name)?.value`, `set(name, value, options)` and `delete(name)`.
 */
module Cookies {

  import opened Wrappers

  datatype SameSite = Lax | Strict | NoSameSiteRestriction

  /** The attributes a `set` call gives a cookie. */
  datatype CookieOptions = CookieOptions(
    httpOnly: bool,
    secure: bool,
    sameSite: SameSite,
    maxAge: int,
    path: string)

  /** A stored cookie; `options` is `None` for one that only came with the request. */
  datatype Cookie = Cookie(value: string, options: Option<CookieOptions>)

  class CookieStore {
    var jar: map<string, Cookie>

    constructor (initial: map<string, Cookie>)
      ensures jar == initial
    {
      jar := initial;
    }

    /** `get(name)?.value`. */
    function Get(name: string): (v: Option<string>)
      reads this
      ensures v.Some? <==> name in jar
      ensures v.Some? ==> v.value == jar[name].value
    {
      if name in jar then Some(jar[name].value) else None
    }

    /** `set(name, value, options)`: adds or replaces one entry. */
    method Set(name: string, value: string, options: CookieOptions)
      modifies this
      ensures jar == old(jar)[name := Cookie(value, Some(options))]
    {
      jar := jar[name := Cookie(value, Some(options))];
    }

    /** `delete(name)`: removes one entry, if present. */
    method Delete(name: string)
      modifies this
      ensures jar == old(jar) - {name}
    {
      jar := jar - {name};
    }
  }
}
