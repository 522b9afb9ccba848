/** The gateway's token cookies: how a request's access and refresh tokens
    are found, and the cookies that set and clear them. */
module TokenCookies {
  import opened Common

  const BearerPrefix := "Bearer "

  /** What the extractors read of a request: the values of each named
      cookie, in order, and the header lines, in arrival order. Cookie names
      are matched exactly; header names are not (Spring's `HttpHeaders`
      keeps its headers in a case-insensitive map). */
  datatype Request = Request(cookies: map<string, seq<string>>, headers: seq<(string, string)>)

  /** The first value of a named cookie, when there is one. */
  function First(m: map<string, seq<string>>, name: string): (r: Option<string>)
    ensures r.Some? <==> name in m && |m[name]| > 0
    ensures r.Some? ==> r.value == m[name][0]
  {
    if name in m && |m[name]| > 0 then Some(m[name][0]) else None
  }

  /** Two header names are the same header when they agree ignoring case. */
  predicate SameHeader(a: string, b: string) {
    Lower(a) == Lower(b)
  }

  /** The position of the first header line with that name, or the number of
      lines when there is none. */
  function HeaderIndex(hs: seq<(string, string)>, name: string): (r: nat)
    ensures r <= |hs|
    ensures r < |hs| ==> SameHeader(hs[r].0, name)
  {
    if |hs| == 0 then 0
    else if SameHeader(hs[0].0, name) then 0
    else 1 + HeaderIndex(hs[1..], name)
  }

  /** No line before the one `HeaderIndex` finds carries the name. */
  lemma {:induction false} HeaderIndexFirst(hs: seq<(string, string)>, name: string, j: nat)
    requires j < HeaderIndex(hs, name)
    ensures !SameHeader(hs[j].0, name)
  {
    if j > 0 {
      HeaderIndexFirst(hs[1..], name, j - 1);
    }
  }

  /** `HttpHeaders.getFirst`: the value of the first header line whose name
      matches ignoring case, when there is one. */
  function Header(hs: seq<(string, string)>, name: string): (r: Option<string>)
    ensures r.Some? <==> exists j :: 0 <= j < |hs| && SameHeader(hs[j].0, name)
    ensures r.Some? <==> HeaderIndex(hs, name) < |hs|
    ensures r.Some? ==> r.value == hs[HeaderIndex(hs, name)].1
  {
    var i := HeaderIndex(hs, name);
    if i < |hs| then Some(hs[i].1)
    else
      assert forall j :: 0 <= j < |hs| ==> !SameHeader(hs[j].0, name) by {
        forall j | 0 <= j < |hs|
          ensures !SameHeader(hs[j].0, name)
        {
          HeaderIndexFirst(hs, name, j);
        }
      }
      None
  }

  /** Header lookup does not see the case of the name asked for. */
  lemma HeaderIgnoresCase(hs: seq<(string, string)>, a: string, b: string)
    requires Lower(a) == Lower(b)
    ensures Header(hs, a) == Header(hs, b)
  {
    HeaderIndexSame(hs, a, b);
  }

  lemma {:induction false} HeaderIndexSame(hs: seq<(string, string)>, a: string, b: string)
    requires Lower(a) == Lower(b)
    ensures HeaderIndex(hs, a) == HeaderIndex(hs, b)
  {
    if |hs| > 0 && !SameHeader(hs[0].0, a) {
      HeaderIndexSame(hs[1..], a, b);
    }
  }

  /** The token carried by a header value "Bearer <token>". */
  function BearerToken(header: Option<string>): (r: Option<string>)
    ensures r.Some? <==> header.Some? && StartsWith(header.value, BearerPrefix)
    ensures r.Some? ==> header.value == BearerPrefix + r.value
  {
    if header.Some? && StartsWith(header.value, BearerPrefix) then
      assert header.value == header.value[..7] + header.value[7..];
      Some(header.value[7..])
    else None
  }

  /** The first cookie of that name, when its value is not empty. */
  function CookieToken(req: Request, name: string): (r: Option<string>)
    ensures r.Some? <==> First(req.cookies, name).Some? && First(req.cookies, name).value != ""
    ensures r.Some? ==> r == First(req.cookies, name)
  {
    var c := First(req.cookies, name);
    if c.Some? && c.value != "" then c else None
  }

  /** `extractAccessToken`: the `Authorization` bearer header first, the
      `accessToken` cookie after it. */
  function ExtractAccessToken(req: Request): (r: Option<string>)
    ensures BearerToken(Header(req.headers, "Authorization")).Some? ==>
              r.Some? && BearerPrefix + r.value == req.headers[HeaderIndex(req.headers, "Authorization")].1
    ensures BearerToken(Header(req.headers, "Authorization")).None? ==> r == CookieToken(req, "accessToken")
    ensures r.Some? ==> r.value != "" || BearerToken(Header(req.headers, "Authorization")).Some?
  {
    var h := BearerToken(Header(req.headers, "Authorization"));
    if h.Some? then h else CookieToken(req, "accessToken")
  }

  /** `extractRefreshToken`: the `refreshToken` cookie first, the
      `Refresh-Token` bearer header after it. */
  function ExtractRefreshToken(req: Request): (r: Option<string>)
    ensures CookieToken(req, "refreshToken").Some? ==> r == Some(req.cookies["refreshToken"][0]) && r.value != ""
    ensures CookieToken(req, "refreshToken").None? ==> r == BearerToken(Header(req.headers, "Refresh-Token"))
  {
    var c := CookieToken(req, "refreshToken");
    if c.Some? then c else BearerToken(Header(req.headers, "Refresh-Token"))
  }

  /** A request carrying a token both ways: header "Bearer <h>" and cookie
      `<c>`, under the given header and cookie names. */
  function BothWays(headerName: string, h: string, cookieName: string, c: string): Request {
    Request(map[cookieName := [c]], [(headerName, BearerPrefix + h)])
  }

  /** The two extractors look in opposite orders: with a token in both
      places, the access token comes from the header and the refresh token
      from the cookie. */
  lemma OppositePrecedence(h: string, c: string)
    requires c != ""
    ensures ExtractAccessToken(BothWays("Authorization", h, "accessToken", c)) == Some(h)
    ensures ExtractRefreshToken(BothWays("Refresh-Token", h, "refreshToken", c)) == Some(c)
  {
    var s := BearerPrefix + h;
    assert s[..7] == BearerPrefix;
    assert s[7..] == h;
  }

  /** A bearer header is found whatever the case of its name. */
  lemma LowerCaseAuthorization(t: string)
    ensures ExtractAccessToken(Request(map[], [("authorization", BearerPrefix + t)])) == Some(t)
  {
    var s := BearerPrefix + t;
    assert Lower("authorization") == Lower("Authorization");
    assert s[..7] == BearerPrefix;
    assert s[7..] == t;
  }

  /** No access token exactly when there is no bearer `Authorization`
      header and no non-empty `accessToken` cookie; likewise for the
      refresh token with its own cookie and header. */
  lemma IgnoredSources(req: Request)
    ensures ExtractAccessToken(req).None? <==>
              (forall v :: Header(req.headers, "Authorization") == Some(v) ==> !StartsWith(v, BearerPrefix)) &&
              ("accessToken" !in req.cookies || req.cookies["accessToken"] == [] || req.cookies["accessToken"][0] == "")
    ensures ExtractRefreshToken(req).None? <==>
              (forall v :: Header(req.headers, "Refresh-Token") == Some(v) ==> !StartsWith(v, BearerPrefix)) &&
              ("refreshToken" !in req.cookies || req.cookies["refreshToken"] == [] || req.cookies["refreshToken"][0] == "")
  {
  }

  // --------------------------------------------------------------- cookies

  /** The attributes of a response cookie that the gateway sets. */
  datatype ResponseCookie = ResponseCookie(name: string, value: string, httpOnly: bool, secure: bool,
                                           path: string, sameSite: string, maxAgeSeconds: int)

  /** Milliseconds to whole seconds with Java's `long` division, which
      truncates toward zero, unlike Dafny's `/` on negative numbers. */
  function MillisToSeconds(ms: int): (s: int)
    ensures ms >= 0 ==> s * 1000 <= ms < s * 1000 + 1000
    ensures ms < 0 ==> s * 1000 - 1000 < ms <= s * 1000
  {
    if ms >= 0 then ms / 1000 else -((-ms) / 1000)
  }

  /** Truncation is symmetric around zero. */
  lemma MillisToSecondsOdd(ms: int)
    ensures MillisToSeconds(-ms) == -MillisToSeconds(ms)
  {
  }

  /** A secure, HTTP-only, site-strict cookie for the whole site. */
  function TokenCookie(name: string, value: string, maxAgeSeconds: int): (r: ResponseCookie)
    ensures r.name == name && r.value == value && r.maxAgeSeconds == maxAgeSeconds
    ensures r.httpOnly && r.secure && r.path == "/" && r.sameSite == "Strict"
  {
    ResponseCookie(name, value, true, true, "/", "Strict", maxAgeSeconds)
  }

  /** `createAccessTokenCookie`: the lifetime is given in milliseconds and
      set in whole seconds. */
  function AccessTokenCookie(token: string, maxAgeMs: int): (r: ResponseCookie)
    ensures r.name == "accessToken" && r.value == token
    ensures r.httpOnly && r.secure && r.path == "/" && r.sameSite == "Strict"
    ensures maxAgeMs >= 0 ==> r.maxAgeSeconds * 1000 <= maxAgeMs < r.maxAgeSeconds * 1000 + 1000
  {
    TokenCookie("accessToken", token, MillisToSeconds(maxAgeMs))
  }

  /** `createRefreshTokenCookie`, the same for the refresh token. */
  function RefreshTokenCookie(token: string, maxAgeMs: int): (r: ResponseCookie)
    ensures r.name == "refreshToken" && r.value == token
    ensures r.httpOnly && r.secure && r.path == "/" && r.sameSite == "Strict"
    ensures maxAgeMs >= 0 ==> r.maxAgeSeconds * 1000 <= maxAgeMs < r.maxAgeSeconds * 1000 + 1000
  {
    TokenCookie("refreshToken", token, MillisToSeconds(maxAgeMs))
  }

  /** `createClearCookie`: an empty value that expires at once. */
  function ClearCookie(name: string): (r: ResponseCookie)
    ensures r.name == name && r.value == "" && r.maxAgeSeconds == 0
    ensures r.httpOnly && r.secure && r.path == "/" && r.sameSite == "Strict"
  {
    TokenCookie(name, "", 0)
  }

  /** A token cookie never outlives its lifetime: the seconds set are the
      milliseconds given, rounded down; under a second is already expired. */
  lemma CookieLifetime(token: string, maxAgeMs: nat)
    ensures var s := AccessTokenCookie(token, maxAgeMs).maxAgeSeconds;
            s * 1000 <= maxAgeMs < s * 1000 + 1000
    ensures maxAgeMs < 1000 ==> AccessTokenCookie(token, maxAgeMs).maxAgeSeconds == 0
    ensures RefreshTokenCookie(token, maxAgeMs).maxAgeSeconds == AccessTokenCookie(token, maxAgeMs).maxAgeSeconds
  {
  }

  /** Clearing a token overwrites exactly the cookie that set it: same name,
      path and flags, so the browser replaces it, with an empty value and no
      lifetime. */
  lemma ClearReplacesTokenCookie(token: string, maxAgeMs: int)
    ensures ClearCookie("accessToken") == AccessTokenCookie(token, maxAgeMs).(value := "", maxAgeSeconds := 0)
    ensures ClearCookie("refreshToken") == RefreshTokenCookie(token, maxAgeMs).(value := "", maxAgeSeconds := 0)
  {
  }
}
