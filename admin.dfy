/**
 * The administrator's shared-secret session (src/lib/admin.ts): the secret
 * decides which password is accepted and which cookie value proves a
 * session; login writes that cookie and logout deletes it.
 */
module Admin {

  import opened Wrappers
  import opened Strings
  import opened Cookies

  const AdminCookie: string := "suggestion_admin"
  /** 24 hours, in seconds. */
  const CookieMaxAge: int := 60 * 60 * 24
  const Salt: string := "suggestion_admin_salt"
  const MissingSecretMessage: string := "ADMIN_PASSWORD が設定されていません。"

  /** The environment variables the core reads. */
  datatype Env = Env(adminPassword: Option<string>, nodeEnv: Option<string>)

  predicate IsProduction(env: Env) {
    env.nodeEnv == Some("production")
  }

  /** `process.env.ADMIN_PASSWORD?.trim()` when it is truthy, i.e. set and not blank. */
  function Secret(env: Env): (s: Option<string>)
    ensures s.None? <==> env.adminPassword.None? || AllWhitespace(env.adminPassword.value)
    ensures s.Some? ==> s.value != "" && s.value == Trim(env.adminPassword.value)
  {
    match env.adminPassword
    case None => None
    case Some(p) =>
      TrimBlankIff(p);
      if Trim(p) == "" then None else Some(Trim(p))
  }

  /**
   * `getExpectedToken`: the hex SHA-256 digest of the trimmed secret
   * followed by the salt, or nothing without a secret. The digest is the
   * parameter `sha256`, about which nothing is assumed.
   */
  function ExpectedToken(env: Env, sha256: string -> string): (t: Option<string>)
    ensures t.None? <==> Secret(env).None?
    ensures t.Some? ==> t.value == sha256(Secret(env).value + Salt)
  {
    match Secret(env)
    case None => None
    case Some(secret) => Some(sha256(secret + Salt))
  }

  /**
   * `verifyAdminPassword`: accepted exactly when a secret is configured
   * and the trimmed input equals the trimmed secret.
   */
  function VerifyAdminPassword(env: Env, password: string): (ok: bool)
    ensures ok <==> Secret(env).Some? && Trim(password) == Secret(env).value
    ensures ok ==> password != "" && !AllWhitespace(password)
  {
    match Secret(env)
    case None => false
    case Some(expected) =>
      TrimBlankIff(password);
      Trim(password) == expected
  }

  /** The attributes `setAdminSession` gives the cookie. */
  function SessionCookieOptions(env: Env): (o: CookieOptions)
    ensures o.httpOnly && o.sameSite == Lax && o.path == "/"
    ensures o.maxAge == 86400
    ensures o.secure <==> IsProduction(env)
  {
    CookieOptions(httpOnly := true, secure := IsProduction(env), sameSite := Lax,
                  maxAge := CookieMaxAge, path := "/")
  }

  /**
   * `setAdminSession`: without a secret it throws and writes nothing;
   * otherwise it stores the expected token under `suggestion_admin`, which
   * is then an admin session.
   */
  method SetAdminSession(env: Env, sha256: string -> string, cookies: CookieStore)
    returns (r: Outcome<string>)
    modifies cookies
    ensures r == (if Secret(env).None? then Fail(MissingSecretMessage) else Pass)
    ensures r.Fail? ==> cookies.jar == old(cookies.jar)
    ensures r.Pass? ==> cookies.jar == old(cookies.jar)[AdminCookie :=
              Cookie(ExpectedToken(env, sha256).value, Some(SessionCookieOptions(env)))]
    ensures r.Pass? ==> IsAdminSession(env, sha256, cookies)
  {
    var token := ExpectedToken(env, sha256);
    if token.None? {
      return Fail(MissingSecretMessage);
    }
    cookies.Set(AdminCookie, token.value, SessionCookieOptions(env));
    r := Pass;
  }

  /** `clearAdminSession`: deletes `suggestion_admin` and nothing else. */
  method ClearAdminSession(cookies: CookieStore)
    modifies cookies
    ensures cookies.jar == old(cookies.jar) - {AdminCookie}
    ensures forall name :: name != AdminCookie ==> cookies.Get(name) == old(cookies.Get(name))
    ensures cookies.Get(AdminCookie).None?
  {
    cookies.Delete(AdminCookie);
  }

  /**
   * `isAdminSession`: the stored `suggestion_admin` value is the token of
   * the CURRENT secret. A null `cookies` stands for `cookies()` throwing,
   * which the source's catch turns into false.
   */
  function IsAdminSession(env: Env, sha256: string -> string, cookies: CookieStore?): (ok: bool)
    reads cookies
    ensures ok <==> cookies != null && ExpectedToken(env, sha256).Some?
                    && cookies.Get(AdminCookie) == ExpectedToken(env, sha256)
  {
    match ExpectedToken(env, sha256)
    case None => false
    case Some(expected) => cookies != null && cookies.Get(AdminCookie) == Some(expected)
  }

  /** An accepted password implies a secret, so the login that follows cannot fail. */
  lemma AcceptedPasswordHasToken(env: Env, sha256: string -> string, password: string)
    requires VerifyAdminPassword(env, password)
    ensures ExpectedToken(env, sha256).Some?
  {
  }

  /** Without a usable secret no password is accepted and no cookie is an admin session. */
  lemma NoSecretFailsClosed(env: Env, sha256: string -> string, cookies: CookieStore?, password: string)
    requires env.adminPassword.None? || AllWhitespace(env.adminPassword.value)
    ensures !VerifyAdminPassword(env, password)
    ensures !IsAdminSession(env, sha256, cookies)
  {
  }

  /** Whitespace around the typed password, or around the configured secret, never matters. */
  lemma {:induction false} VerifyIgnoresPadding(env: Env, password: string, left: string, right: string)
    requires AllWhitespace(left) && AllWhitespace(right)
    ensures VerifyAdminPassword(env, left + password + right) == VerifyAdminPassword(env, password)
    ensures env.adminPassword.Some? ==>
              VerifyAdminPassword(Env(Some(left + env.adminPassword.value + right), env.nodeEnv), password)
              == VerifyAdminPassword(env, password)
  {
    TrimIgnoresPadding(left, password, right);
    if env.adminPassword.Some? {
      var configured := env.adminPassword.value;
      var padded := left + configured + right;
      TrimIgnoresPadding(left, configured, right);
      TrimBlankIff(configured);
      TrimBlankIff(padded);
      assert Secret(Env(Some(padded), env.nodeEnv)) == Secret(env);
    }
  }

  /**
   * Rotating the secret: a cookie holding the token of the old secret is
   * not a session under a secret whose token differs.
   */
  lemma RotatedSecretRejectsOldCookie(old_env: Env, new_env: Env, sha256: string -> string, cookies: CookieStore)
    requires IsAdminSession(old_env, sha256, cookies)
    requires ExpectedToken(new_env, sha256) != ExpectedToken(old_env, sha256)
    ensures !IsAdminSession(new_env, sha256, cookies)
  {
  }
}
