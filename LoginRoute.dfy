/**
 * The password-login API route: maps the sign-in outcome to a status and
 * body, and on success sets the session cookie whose name is derived from
 * the project URL.
 */
module LoginRoute {
  import opened Wrappers
  import opened Strings
  import opened Cookies

  const NoSessionMessage := "No session created"

  /**
   * The sign-in service's answer. A session is carried as the JSON text the
   * route builds from it; the cookie value stands for that text's base64
   * encoding.
   */
  datatype SignInReply = SignInError(message: string) | SignedIn(session: Option<string>)

  datatype Body = Body(success: bool, error: Option<string>)

  datatype Reply = Reply(status: int, body: Body, cookies: map<string, Cookie>)

  /**
   * `r` is the text of `url` from `start` up to a '.', a "//" or the end of
   * the URL, whichever comes first.
   */
  predicate PieceAt(url: string, start: nat, r: string) {
    start <= |url| && StartsWith(url[start..], r) &&
    (start + |r| == |url| || url[start + |r|] == '.' || OccursAt(url, "//", start + |r|))
  }

  /** No '.' and no "//" starts inside the `|r|` characters of `url` from `start` on. */
  predicate PlainPiece(url: string, start: nat, r: string) {
    start + |r| <= |url| &&
    forall m :: start <= m < start + |r| ==> url[m] != '.' && !OccursAt(url, "//", m)
  }

  /**
   * `url.split('//')[1].split('.')[0]`: the text after the first "//", up to
   * the first '.', the next "//" or the end. `None` when there is no "//",
   * where indexing the split result yields undefined and the call throws.
   */
  function ProjectRef(url: string): (r: Option<string>)
    ensures r.Some? <==> Contains(url, "//")
    ensures r.Some? ==> !Contains(r.value, ".")
    ensures r.Some? ==> PieceAt(url, IndexOfFrom(url, "//", 0).value + 2, r.value)
    ensures r.Some? ==> PlainPiece(url, IndexOfFrom(url, "//", 0).value + 2, r.value)
  {
    var parts := Split(url, "//");
    SplitFirstPiece(url, "//");
    if |parts| < 2 then None
    else
      var r := Split(parts[1], ".")[0];
      ProjectRefPieces(url, parts, parts[1], r);
      Some(r)
  }

  lemma ProjectRefPieces(url: string, parts: seq<string>, host: string, r: string)
    requires parts == Split(url, "//") && |parts| >= 2 && host == parts[1] && r == Split(host, ".")[0]
    ensures PieceAt(url, |parts[0]| + 2, r)
    ensures PlainPiece(url, |parts[0]| + 2, r)
  {
    SplitFirstPiece(url, "//");
    var start := |parts[0]| + 2;
    assert OccursAt(url, "//", |parts[0]|);
    var tail := url[start..];
    assert parts[1..] == Split(tail, "//");
    assert host == Split(tail, "//")[0];
    PieceBoundary(tail, "//", host);
    PieceBoundary(host, ".", r);
    PieceWithin(url, start, host, r);
    PieceIsPlain(url, start, host, r);
  }

  /** The first piece of a split ends at the end of the text or right before the separator. */
  lemma PieceBoundary(s: string, sep: string, first: string)
    requires sep != [] && first == Split(s, sep)[0]
    ensures StartsWith(s, first)
    ensures first == s || OccursAt(s, sep, |first|)
    ensures forall j :: 0 <= j < |first| ==> !OccursAt(s, sep, j)
  {
    SplitFirstPiece(s, sep);
  }

  /** Cutting the host piece at its first '.' gives a piece of the URL. */
  lemma PieceWithin(url: string, start: nat, host: string, r: string)
    requires start <= |url|
    requires StartsWith(url[start..], host) && (host == url[start..] || OccursAt(url[start..], "//", |host|))
    requires StartsWith(host, r) && (r == host || OccursAt(host, ".", |r|))
    ensures PieceAt(url, start, r)
  {
    var tail := url[start..];
    assert tail[..|r|] == r by {
      assert host[..|r|] == r;
      assert tail[..|host|] == host;
    }
    if r != host {
      assert host[|r|..|r| + 1] == ".";
      assert url[start + |r|] == tail[|r|] == host[|r|];
    } else if host != tail {
      assert url[start + |host|..start + |host| + 2] == tail[|host|..|host| + 2];
    }
  }

  /** The piece stops before the first '.' of the host and before the next "//". */
  lemma PieceIsPlain(url: string, start: nat, host: string, r: string)
    requires start <= |url| && StartsWith(url[start..], host) && StartsWith(host, r)
    requires forall j :: 0 <= j < |host| ==> !OccursAt(url[start..], "//", j)
    requires forall j :: 0 <= j < |r| ==> !OccursAt(host, ".", j)
    ensures PlainPiece(url, start, r)
  {
    var tail := url[start..];
    forall m | start <= m < start + |r|
      ensures url[m] != '.' && !OccursAt(url, "//", m)
    {
      var j := m - start;
      assert host[..|r|] == r && tail[..|host|] == host;
      assert url[m] == tail[j] == host[j];
      assert !OccursAt(host, ".", j);
      assert url[m] != '.';
      assert !OccursAt(tail, "//", j);
      if m + 2 <= |url| {
        assert url[m..m + 2] == tail[j..j + 2];
      }
      assert !OccursAt(url, "//", m);
    }
  }

  /** At most one piece starts at a given place: the two clauses of `ProjectRef` fix its value. */
  lemma PieceDetermined(url: string, start: nat, r1: string, r2: string)
    requires PieceAt(url, start, r1) && PlainPiece(url, start, r1)
    requires PieceAt(url, start, r2) && PlainPiece(url, start, r2)
    ensures r1 == r2
  {
    if |r1| < |r2| {
      assert false;
    } else if |r2| < |r1| {
      assert false;
    }
    assert r1 == url[start..][..|r1|] && r2 == url[start..][..|r2|];
  }

  /** The cookie's name, `sb-<projectRef>-auth-token`; the browser client derives its storage key the same way. */
  function AuthCookieName(url: string): (name: Option<string>)
    ensures name.Some? <==> Contains(url, "//")
    ensures name.Some? ==> name.value == "sb-" + ProjectRef(url).value + "-auth-token"
  {
    match ProjectRef(url)
    case None => None
    case Some(ref) => Some("sb-" + ref + "-auth-token")
  }

  /** The session cookie's attributes; `secure` only in production. */
  function SessionCookie(value: string, production: bool): (c: Cookie)
    ensures c.value == value && c.httpOnly && c.sameSite == Lax && c.path == "/"
    ensures c.maxAge == 604800
    ensures c.secure <==> production
  {
    Cookie(value, true, production, Lax, SevenDays, "/")
  }

  /**
   * `btoa` encodes text whose characters all lie in Latin-1 (at most
   * U+00FF) and throws on any other character.
   */
  predicate BtoaAccepts(text: string) {
    forall i :: 0 <= i < |text| ==> text[i] <= '\U{FF}'
  }

  /**
   * `POST`. `url` is the configured project URL; `None` is the request that
   * throws: the URL has no "//", or the session's JSON text holds a
   * character `btoa` refuses.
   */
  method Post(url: string, reply: SignInReply, production: bool) returns (response: Option<Reply>)
    ensures reply.SignInError? ==> response == Some(Reply(401, Body(false, Some(reply.message)), map[]))
    ensures reply == SignedIn(None) ==> response == Some(Reply(500, Body(false, Some(NoSessionMessage)), map[]))
    ensures reply.SignedIn? && reply.session.Some? ==>
      (response.None? <==> !Contains(url, "//") || !BtoaAccepts(reply.session.value)) &&
      (response.Some? ==>
        response.value.status == 200 && response.value.body == Body(true, None) &&
        response.value.cookies == map[AuthCookieName(url).value := SessionCookie(reply.session.value, production)])
  {
    match reply {
      case SignInError(message) =>
        return Some(Reply(401, Body(false, Some(message)), map[]));
      case SignedIn(None) =>
        return Some(Reply(500, Body(false, Some(NoSessionMessage)), map[]));
      case SignedIn(Some(session)) =>
        var jar := new CookieJar(map[]);
        var ref := ProjectRef(url);
        if ref.None? {
          return None;
        }
        var name := "sb-" + ref.value + "-auth-token";
        if !BtoaAccepts(session) {
          return None;
        }
        jar.Set(name, SessionCookie(session, production));
        return Some(Reply(200, Body(true, None), jar.cookies));
    }
  }

  /**
   * A user whose display name is Korean cannot sign in through the route:
   * the session's JSON text carries the name, and `btoa` throws on it.
   */
  method KoreanDisplayNameThrows() returns (response: Option<Reply>)
    ensures response.None?
  {
    var session := "{\"user\":{\"user_metadata\":{\"display_name\":\"민수\"}}}";
    assert session[42] == '민';
    response := Post("https://abc.supabase.co", SignedIn(Some(session)), true);
  }

  /** The `k` characters of `url` from `start` on are neither '.' nor '/'. */
  predicate PlainRun(url: string, start: nat, k: nat) {
    start + k <= |url| && forall p :: start <= p < start + k ==> url[p] != '.' && url[p] != '/'
  }

  /** A run of characters other than '.' and '/' that ends at a '.' is a plain piece. */
  lemma RunIsPiece(url: string, start: nat, k: nat)
    requires PlainRun(url, start, k) && start + k < |url| && url[start + k] == '.'
    ensures PieceAt(url, start, url[start..start + k]) && PlainPiece(url, start, url[start..start + k])
  {
    assert url[start..][..k] == url[start..start + k];
    forall m | start <= m < start + k ensures !OccursAt(url, "//", m) {
      if m + 2 <= |url| {
        assert url[m..m + 2][0] == url[m];
      }
    }
  }

  /** A plain piece that starts at a run of characters other than '.' and '/' ending at a '.' is that run. */
  lemma PlainPieceIsRun(url: string, start: nat, k: nat, r: string)
    requires PieceAt(url, start, r) && PlainPiece(url, start, r)
    requires PlainRun(url, start, k) && start + k < |url| && url[start + k] == '.'
    ensures r == url[start..start + k]
  {
    RunIsPiece(url, start, k);
    PieceDetermined(url, start, r, url[start..start + k]);
  }

  /** The first "//" of the hosted project's URL is the one after the scheme. */
  lemma SchemeSeparator(url: string)
    requires url == "https://abc.supabase.co"
    ensures IndexOfFrom(url, "//", 0) == Some(6)
  {
    assert OccursAt(url, "//", 6);
    assert url[..7] == "https:/";
    forall j | 0 <= j < 6 ensures !OccursAt(url, "//", j) {
      assert url[j + 1] == url[..7][j + 1];
    }
  }

  /**
   * When the first "//" stands at `i` and is followed by `k` characters
   * other than '.' and '/' and then a '.', the project reference is exactly
   * those `k` characters.
   */
  lemma ProjectRefOfHost(url: string, i: nat, k: nat)
    requires IndexOfFrom(url, "//", 0) == Some(i)
    requires PlainRun(url, i + 2, k) && i + 2 + k < |url| && url[i + 2 + k] == '.'
    ensures ProjectRef(url) == Some(url[i + 2..i + 2 + k])
  {
    assert Contains(url, "//");
    PlainPieceIsRun(url, i + 2, k, ProjectRef(url).value);
  }

  /** The hosted project's URL gives its subdomain. */
  lemma ProjectRefExample(url: string)
    requires url == "https://abc.supabase.co"
    ensures ProjectRef(url) == Some("abc")
  {
    SchemeSeparator(url);
    assert url[8..11] == "abc" && url[11] == '.';
    assert PlainRun(url, 8, 3);
    ProjectRefOfHost(url, 6, 3);
  }

  /** The hosted project's session cookie, and the browser's storage key, are `sb-abc-auth-token`. */
  lemma ExampleCookieName(url: string)
    requires url == "https://abc.supabase.co"
    ensures AuthCookieName(url) == Some("sb-" + "abc" + "-auth-token")
  {
    ProjectRefExample(url);
  }
}
