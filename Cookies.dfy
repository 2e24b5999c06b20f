/** Cookies with their attributes, and a cookie store changed in place. */
module Cookies {
  datatype SameSite = Strict | Lax

  datatype Cookie = Cookie(
    value: string,
    httpOnly: bool,
    secure: bool,
    sameSite: SameSite,
    maxAge: int,
    path: string)

  /** Seven days in seconds, the lifetime both session cookies get. */
  const SevenDays: int := 60 * 60 * 24 * 7

  /** Where a later request comes from, as the `SameSite` rule sees it. */
  datatype Origin =
    | FromSameSite          // a page of the site itself, or an address typed or bookmarked
    | CrossSiteNavigation   // a top-level GET navigation from a link on another site
    | CrossSiteSubrequest   // any other request another site makes

  /**
   * A later request: the seconds elapsed since the cookies were set, whether
   * it travels over HTTPS, and where it comes from.
   */
  datatype Request = Request(elapsed: nat, https: bool, origin: Origin)

  /**
   * Whether the browser attaches a stored cookie to a request: only before
   * `maxAge` seconds have passed, a `secure` cookie only over HTTPS, a
   * `Strict` cookie only on a same-site request and a `Lax` one also on a
   * top-level navigation from another site.
   */
  predicate Delivered(c: Cookie, req: Request) {
    req.elapsed < c.maxAge &&
    (req.https || !c.secure) &&
    match c.sameSite
    case Strict => req.origin == FromSameSite
    case Lax => req.origin != CrossSiteSubrequest
  }

  /** What a later request carries: the name and value of each stored cookie delivered to it. */
  function RequestCookies(jar: map<string, Cookie>, req: Request): (r: map<string, string>)
    ensures forall name :: name in r <==> name in jar && Delivered(jar[name], req)
    ensures forall name :: name in r ==> r[name] == jar[name].value
  {
    map name | name in jar && Delivered(jar[name], req) :: jar[name].value
  }

  class CookieJar {
    var cookies: map<string, Cookie>

    constructor (initial: map<string, Cookie>)
      ensures cookies == initial
    {
      cookies := initial;
    }

    method Set(name: string, cookie: Cookie)
      modifies this
      ensures cookies == old(cookies)[name := cookie]
    {
      cookies := cookies[name := cookie];
    }

    method Delete(name: string)
      modifies this
      ensures cookies == old(cookies) - {name}
    {
      cookies := cookies - {name};
    }
  }
}
