/**
 * The request gate in front of the study pages: a path beginning with
 * "/study" needs an `auth_token` cookie, whatever its value.
 */
module Middleware {
  import opened Strings

  const ProtectedPrefix := "/study"
  const AuthCookieName := "auth_token"

  datatype Response = Next | Redirect(location: string)

  /** `middleware(request)`: the request's path and its cookies by name. */
  function Gate(path: string, cookies: map<string, string>): (r: Response)
    ensures r == Next || r == Redirect("/")
    ensures r == Redirect("/") <==> StartsWith(path, ProtectedPrefix) && AuthCookieName !in cookies
  {
    if StartsWith(path, ProtectedPrefix) && AuthCookieName !in cookies then Redirect("/")
    else Next
  }

  /** The route matcher `/study/:path*`: "/study" itself or anything below it. */
  predicate MatcherApplies(path: string) {
    path == ProtectedPrefix || StartsWith(path, ProtectedPrefix + "/")
  }

  /** What a request meets: the gate where the matcher invokes it, the page otherwise. */
  function Route(path: string, cookies: map<string, string>): (r: Response)
    ensures r == Redirect("/") <==> MatcherApplies(path) && AuthCookieName !in cookies
  {
    assert MatcherApplies(path) ==> StartsWith(path, ProtectedPrefix) by {
      if StartsWith(path, ProtectedPrefix + "/") {
        assert path[..|ProtectedPrefix|] == (ProtectedPrefix + "/")[..|ProtectedPrefix|];
      }
    }
    if MatcherApplies(path) then Gate(path, cookies) else Next
  }

  /** The cookie's value is never read: any two values give the same answer. */
  lemma GateIgnoresCookieValue(path: string, cookies: map<string, string>, v1: string, v2: string)
    ensures Gate(path, cookies[AuthCookieName := v1]) == Gate(path, cookies[AuthCookieName := v2])
    ensures Gate(path, cookies[AuthCookieName := v1]) == Next
  {
  }

  /** The prefix test is on characters: "/studyX" is gated, though the matcher never sends it there. */
  lemma StudyXIsGatedButNotMatched()
    ensures Gate("/studyX", map[]) == Redirect("/")
    ensures !MatcherApplies("/studyX")
    ensures Route("/studyX", map[]) == Next
  {
    assert "/studyX"[..|ProtectedPrefix|] == ProtectedPrefix;
    assert "/studyX"[..|ProtectedPrefix + "/"|] != ProtectedPrefix + "/" by {
      assert "/studyX"[6] != (ProtectedPrefix + "/")[6];
    }
  }
}
