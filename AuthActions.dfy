/**
 * The site-password server action: a correct password sets the
 * `auth_token` cookie and redirects to the study pages; `logout` removes it.
 */
module AuthActions {
  import opened Wrappers
  import opened Strings
  import opened Cookies
  import Middleware

  const DefaultSitePassword := "default_password"
  const AuthTokenValue := "authenticated"
  const WrongPasswordMessage := "비밀번호가 올바르지 않습니다."
  const GenericErrorMessage := "인증 중 오류가 발생했습니다."

  /** A redirect (thrown by the framework and passed on) or a returned error. */
  datatype ActionResult = RedirectTo(location: string) | Failed(error: string)

  /** `process.env.SITE_PASSWORD || 'default_password'`: unset and empty both fall back. */
  function ExpectedSecret(sitePassword: Option<string>): (secret: string)
    ensures secret != ""
    ensures sitePassword.Some? && sitePassword.value != "" ==> secret == sitePassword.value
    ensures sitePassword.None? || sitePassword.value == "" ==> secret == DefaultSitePassword
  {
    if sitePassword.Some? && sitePassword.value != "" then sitePassword.value else DefaultSitePassword
  }

  /** The form field (absent when the form has none) compared strictly with the secret. */
  predicate PasswordAccepted(password: Option<string>, sitePassword: Option<string>) {
    password == Some(ExpectedSecret(sitePassword))
  }

  /** The cookie a successful login sets; `secure` only in production. */
  function SessionCookie(production: bool): (c: Cookie)
    ensures c.value == AuthTokenValue && c.httpOnly && c.sameSite == Strict
    ensures c.maxAge == 604800 && c.path == "/"
    ensures c.secure <==> production
  {
    Cookie(AuthTokenValue, true, production, Strict, SevenDays, "/")
  }

  /** Neither an empty password nor a missing field is ever accepted. */
  lemma EmptyPasswordRejected(sitePassword: Option<string>)
    ensures !PasswordAccepted(Some(""), sitePassword)
    ensures !PasswordAccepted(None, sitePassword)
  {
    assert ExpectedSecret(sitePassword) != "";
  }

  /**
   * `authenticateUser`. `storeFails` stands for an exception raised while
   * reaching the cookie store, which the action turns into the generic error.
   */
  method AuthenticateUser(jar: CookieJar, password: Option<string>, sitePassword: Option<string>,
                          production: bool, storeFails: bool) returns (r: ActionResult)
    modifies jar
    ensures !PasswordAccepted(password, sitePassword) ==> r == Failed(WrongPasswordMessage)
    ensures PasswordAccepted(password, sitePassword) && storeFails ==> r == Failed(GenericErrorMessage)
    ensures PasswordAccepted(password, sitePassword) && !storeFails ==> r == RedirectTo("/study")
    ensures r.RedirectTo? ==> jar.cookies == old(jar.cookies)[Middleware.AuthCookieName := SessionCookie(production)]
    ensures r.Failed? ==> jar.cookies == old(jar.cookies)
  {
    var expected := ExpectedSecret(sitePassword);
    if password == Some(expected) {
      if storeFails {
        return Failed(GenericErrorMessage);
      }
      jar.Set(Middleware.AuthCookieName, SessionCookie(production));
      return RedirectTo("/study");
    } else {
      return Failed(WrongPasswordMessage);
    }
  }

  /** `logout`: removes only `auth_token`, then redirects home. */
  method Logout(jar: CookieJar) returns (r: ActionResult)
    modifies jar
    ensures r == RedirectTo("/")
    ensures jar.cookies == old(jar.cookies) - {Middleware.AuthCookieName}
  {
    jar.Delete(Middleware.AuthCookieName);
    return RedirectTo("/");
  }

  /**
   * After a successful login a study page is let through exactly while the
   * cookie is delivered: within seven days, over HTTPS in production, and
   * from the site itself, since the cookie is `Strict`.
   */
  lemma LoginOpensStudy(jar: map<string, Cookie>, production: bool, path: string, req: Request)
    ensures Middleware.Gate(path, RequestCookies(jar[Middleware.AuthCookieName := SessionCookie(production)], req)) == Middleware.Next
      <==> !StartsWith(path, Middleware.ProtectedPrefix) ||
           (req.elapsed < SevenDays && (req.https || !production) && req.origin == FromSameSite)
  {
    var after := jar[Middleware.AuthCookieName := SessionCookie(production)];
    assert after[Middleware.AuthCookieName] == SessionCookie(production);
    assert Middleware.AuthCookieName in RequestCookies(after, req) <==> Delivered(SessionCookie(production), req);
  }

  /** After logout every study page redirects home, whatever other cookies remain and however it is requested. */
  lemma LogoutClosesStudy(jar: map<string, Cookie>, path: string, req: Request)
    requires StartsWith(path, Middleware.ProtectedPrefix)
    ensures Middleware.Gate(path, RequestCookies(jar - {Middleware.AuthCookieName}, req)) == Middleware.Redirect("/")
  {
    assert Middleware.AuthCookieName !in RequestCookies(jar - {Middleware.AuthCookieName}, req);
  }

  /**
   * A second login with the same password leaves the cookies as the first
   * left them, and a second logout leaves them as the first did.
   */
  method RepeatLoginAndLogout(jar: CookieJar, password: Option<string>, sitePassword: Option<string>, production: bool)
    returns (loggedInOnce: map<string, Cookie>, loggedInTwice: map<string, Cookie>,
             loggedOutOnce: map<string, Cookie>, loggedOutTwice: map<string, Cookie>)
    modifies jar
    ensures loggedInTwice == loggedInOnce
    ensures loggedInOnce == if PasswordAccepted(password, sitePassword)
      then old(jar.cookies)[Middleware.AuthCookieName := SessionCookie(production)] else old(jar.cookies)
    ensures loggedOutTwice == loggedOutOnce == loggedInOnce - {Middleware.AuthCookieName}
    ensures jar.cookies == loggedOutTwice
  {
    var _ := AuthenticateUser(jar, password, sitePassword, production, false);
    loggedInOnce := jar.cookies;
    var _ := AuthenticateUser(jar, password, sitePassword, production, false);
    loggedInTwice := jar.cookies;
    var _ := Logout(jar);
    loggedOutOnce := jar.cookies;
    var _ := Logout(jar);
    loggedOutTwice := jar.cookies;
  }
}
