/** The request-decoration and token-refresh decisions of the REST facade
    (`web/ApiImpl.java`): when a stored OAuth session is stale, the value of the
    `Authorization` header, the CSRF token recovered from a cookie string, the
    sentinel that replaces an empty id filter, and the logged-client interceptor
    as one decision from what it reads to what it adds, stores and requests. */
module Api {
  import opened Common

  /** The stored OAuth response (`AuthenticationStepicResponse`); `isSuccess` is the
      response's own success flag. */
  datatype AuthSession = AuthSession(
    accessToken: string,
    refreshToken: string,
    tokenType: string,
    expiresIn: int,
    isSuccess: bool)

  /** The cached user profile (only its identity matters here). */
  datatype Profile = Profile(id: int)

  /** The timestamp value that means "issuance time unknown". */
  const UnknownTimestamp: int := -1

  /** Seconds shaved off `expires_in` so a token is renewed before the server rejects it. */
  const ExpirySafetyMarginSeconds: int := 50

  // ---------------------------------------------------------------------------
  // Staleness
  // ---------------------------------------------------------------------------

  /** Whether the stored session must be refreshed before use (`isNeededUpdate`).
      Times are milliseconds; `expiresIn` is seconds. */
  function NeedsUpdate(session: Option<AuthSession>, timestamp: int, now: int): (stale: bool)
    ensures session.None? ==> !stale
    ensures session.Some? && timestamp == UnknownTimestamp ==> stale
    ensures session.Some? && timestamp != UnknownTimestamp ==>
              (stale <==> now - timestamp > (session.value.expiresIn - ExpirySafetyMarginSeconds) * 1000)
  {
    match session
    case None => false
    case Some(s) =>
      if timestamp == UnknownTimestamp then true
      else
        var delta := now - timestamp;
        var expiresMillis := (s.expiresIn - ExpirySafetyMarginSeconds) * 1000;
        delta > expiresMillis
  }

  /** The comparison is strict: at exactly the margin the token is still fresh, one
      millisecond later it is stale. */
  lemma StalenessBoundary(s: AuthSession, timestamp: int)
    requires timestamp != UnknownTimestamp
    ensures !NeedsUpdate(Some(s), timestamp, timestamp + (s.expiresIn - ExpirySafetyMarginSeconds) * 1000)
    ensures NeedsUpdate(Some(s), timestamp, timestamp + (s.expiresIn - ExpirySafetyMarginSeconds) * 1000 + 1)
  {
  }

  /** Staleness is monotone in the clock: once stale, a later reading is stale too. This is
      why the re-check taken under the writer lock agrees with the first check. */
  lemma StalenessMonotone(session: Option<AuthSession>, timestamp: int, now: int, later: int)
    requires now <= later
    requires NeedsUpdate(session, timestamp, now)
    ensures NeedsUpdate(session, timestamp, later)
  {
  }

  // ---------------------------------------------------------------------------
  // Header values
  // ---------------------------------------------------------------------------

  /** The `Authorization` value for the logged client (`getAuthHeaderValueForLogged`). */
  function AuthHeaderValue(session: Option<AuthSession>): (v: string)
    ensures session.None? <==> v == ""
    ensures session.Some? ==>
              && |v| == |session.value.tokenType| + 1 + |session.value.accessToken|
              && v[..|session.value.tokenType|] == session.value.tokenType
              && v[|session.value.tokenType|] == ' '
              && v[|session.value.tokenType| + 1..] == session.value.accessToken
  {
    match session
    case None => ""
    case Some(s) => s.tokenType + " " + s.accessToken
  }

  // ---------------------------------------------------------------------------
  // CSRF token from a cookie string
  // ---------------------------------------------------------------------------

  /** One `name=value` cookie pair as the cookie parser reads it: split at the first `=`,
      both sides trimmed. A pair with no `=` or an empty name yields no cookie. */
  function ParsePair(pair: string): (r: Option<(string, string)>)
    ensures r.Some? ==> '=' in pair && r.value.0 != ""
    ensures '=' !in pair ==> r.None?
    // with the first `=` at k: the name is the trimmed text before it, the value the trimmed
    // text after it, and a name that trims to nothing gives no cookie
    ensures forall k :: 0 <= k < |pair| && pair[k] == '=' && '=' !in pair[..k] ==>
              var name := Trim(pair[..k], IsJavaTrimmable);
              (name == "" ==> r.None?)
              && (name != "" ==> r == Some((name, Trim(pair[k + 1..], IsJavaTrimmable))))
  {
    match IndexOfChar(pair, '=')
    case None => None
    case Some(i) =>
      assert forall k :: 0 <= k < |pair| && pair[k] == '=' && '=' !in pair[..k] ==> k == i;
      var name := Trim(pair[..i], IsJavaTrimmable);
      if name == "" then None
      else Some((name, Trim(pair[i + 1..], IsJavaTrimmable)))
  }

  /** The pair carries a cookie called `name`. */
  predicate PairNamed(pair: string, name: string)
  {
    ParsePair(pair).Some? && ParsePair(pair).value.0 == name
  }

  /** The CSRF token in a `;`-separated cookie string (`getCsrfTokenFromCookies`): the value
      of the first pair named `csrfCookieName`, or the empty string when there is none. */
  function CsrfFromCookies(cookies: string, csrfCookieName: string): (token: string)
    ensures (forall i :: 0 <= i < |Split(cookies, ';')| ==> !PairNamed(Split(cookies, ';')[i], csrfCookieName))
              ==> token == ""
    ensures forall i :: IsFirstWhere(Split(cookies, ';'), IsCsrfPair(csrfCookieName), i)
              ==> token == ParsePair(Split(cookies, ';')[i]).value.1
  {
    var pairs := Split(cookies, ';');
    match FirstIndexWhere(pairs, IsCsrfPair(csrfCookieName))
    case None => ""
    case Some(j) =>
      assert forall i :: IsFirstWhere(pairs, IsCsrfPair(csrfCookieName), i) ==> i == j by {
        forall i | IsFirstWhere(pairs, IsCsrfPair(csrfCookieName), i) {
          FirstWhereIsUnique(pairs, IsCsrfPair(csrfCookieName), i, j);
        }
      }
      ParsePair(pairs[j]).value.1
  }

  /** The test applied to each pair: does it carry the CSRF cookie? */
  function IsCsrfPair(csrfCookieName: string): string -> bool
  {
    pair => PairNamed(pair, csrfCookieName)
  }

  // ---------------------------------------------------------------------------
  // Course id filter
  // ---------------------------------------------------------------------------

  /** The id sent when the caller asks for no ids: the backend refuses an empty filter. */
  const SentinelId: int := 0

  /** The id filter of `getCourses`, whose array may be null. */
  function CourseIdsFilter(ids: Option<seq<int>>): (r: seq<int>)
    ensures |r| >= 1
    ensures ids.None? || ids.value == [] ==> r == [SentinelId]
    ensures ids.Some? && ids.value != [] ==> r == ids.value
  {
    if ids.None? || |ids.value| == 0 then [SentinelId] else ids.value
  }

  /** The id filter of `getCoursesReactive`, whose array is never null. */
  function CourseIdsFilterReactive(ids: seq<int>): (r: seq<int>)
    ensures |r| >= 1
    ensures ids == [] ==> r == [SentinelId]
    ensures ids != [] ==> r == ids
  {
    if |ids| == 0 then [SentinelId] else ids
  }

  /** The two entry points normalise a present array alike, and normalising twice changes nothing. */
  lemma CourseIdsFiltersAgree(ids: seq<int>)
    ensures CourseIdsFilter(Some(ids)) == CourseIdsFilterReactive(ids)
    ensures CourseIdsFilterReactive(CourseIdsFilterReactive(ids)) == CourseIdsFilterReactive(ids)
  {
  }

  // ---------------------------------------------------------------------------
  // The logged-client interceptor
  // ---------------------------------------------------------------------------

  datatype HeaderName = UserAgent | Cookie | Referer | CsrfToken | Authorization

  datatype Header = Header(name: HeaderName, value: string)

  /** Fixed configuration the interceptor reads. */
  datatype Config = Config(baseUrl: string, csrfCookieName: string, userAgent: string)

  /** What the credential store holds when the request starts. */
  datatype Store = Store(session: Option<AuthSession>, timestamp: int, profile: Option<Profile>)

  /** The refresh call: it threw, or it answered with an HTTP status and a body
      (`errorBodyReadable` is whether reading the error body succeeded). */
  datatype RefreshOutcome =
    | RefreshThrew
    | RefreshAnswered(httpSuccessful: bool, code: int, body: Option<AuthSession>, errorBodyReadable: bool)

  /** What one pass through the interceptor does before the request proceeds. */
  datatype Decision = Decision(
    headers: seq<Header>,             // headers added, in order
    storedSession: Option<AuthSession>, // session written to the store, if any
    storedProfile: Option<Profile>,   // profile written to the store, if any
    refreshCalled: bool,              // the refresh endpoint was called
    logout: bool)                     // a forced logout was requested

  predicate HasHeader(headers: seq<Header>, name: HeaderName)
  {
    exists i :: 0 <= i < |headers| && headers[i].name == name
  }

  /** The refresh produced a usable session. */
  predicate RefreshSucceeded(refresh: RefreshOutcome)
  {
    refresh.RefreshAnswered? && refresh.body.Some? && refresh.body.value.isSuccess
  }

  /** The refresh answered with an unsuccessful HTTP 401. */
  predicate RefreshRejected(refresh: RefreshOutcome)
  {
    refresh.RefreshAnswered? && !refresh.httpSuccessful && refresh.code == 401
  }

  /** The logged interceptor. `cookies` is the cookie string available after the anonymous
      bootstrap (None when even the bootstrap produced none); `profileBody` is what the
      cookie-authenticated profile fetch returns; `refresh` is what the refresh call does
      if it is made. */
  function Intercept(cfg: Config, store: Store, now: int, cookies: Option<string>,
                     profileBody: Option<Profile>, refresh: RefreshOutcome): (d: Decision)
    // every request carries the user agent first
    ensures |d.headers| >= 1 && d.headers[0] == Header(UserAgent, cfg.userAgent)
    // anonymous path: no token, cookie headers exactly when a cookie string exists
    ensures store.session.None? ==>
              && !HasHeader(d.headers, Authorization)
              && !d.refreshCalled && !d.logout && d.storedSession.None?
              && (HasHeader(d.headers, Cookie) <==> cookies.Some?)
              && (HasHeader(d.headers, CsrfToken) <==> cookies.Some?)
    ensures store.session.None? && cookies.None? ==> d.headers == [Header(UserAgent, cfg.userAgent)]
    ensures store.session.None? && cookies.Some? ==>
              d.headers == [Header(UserAgent, cfg.userAgent), Header(Cookie, cookies.value),
                            Header(Referer, cfg.baseUrl),
                            Header(CsrfToken, CsrfFromCookies(cookies.value, cfg.csrfCookieName))]
    // a profile is stored only on the anonymous path, only when none was stored before
    ensures d.storedProfile.Some? ==>
              store.session.None? && store.profile.None? && cookies.Some? && d.storedProfile == profileBody
    // and on that path, with no profile stored yet, whatever profile the fetch returned is stored
    ensures store.session.None? && store.profile.None? && cookies.Some? ==> d.storedProfile == profileBody
    // the refresh endpoint is called exactly for a stored stale session
    ensures d.refreshCalled <==> NeedsUpdate(store.session, store.timestamp, now)
    // a fresh session is used as stored
    ensures store.session.Some? && !d.refreshCalled ==>
              d.headers == [Header(UserAgent, cfg.userAgent),
                            Header(Authorization, AuthHeaderValue(store.session))]
              && d.storedSession.None? && !d.logout
    // a session is stored only when the refresh returned a successful body, and then it is used
    ensures d.storedSession.Some? <==> d.refreshCalled && RefreshSucceeded(refresh)
    ensures d.storedSession.Some? ==>
              d.storedSession == refresh.body
              && d.headers == [Header(UserAgent, cfg.userAgent),
                               Header(Authorization, AuthHeaderValue(refresh.body))]
    // a failed refresh lets the request through with no token
    ensures d.refreshCalled && !RefreshSucceeded(refresh) ==>
              d.headers == [Header(UserAgent, cfg.userAgent)] && d.storedSession.None?
    // forced logout only for a rejected (401) refresh whose error body could be read
    ensures d.logout <==> d.refreshCalled && !RefreshSucceeded(refresh) && RefreshRejected(refresh)
                          && refresh.errorBodyReadable
  {
    match store.session
    case None => AnonymousDecision(cfg, store.profile, cookies, profileBody)
    case Some(session) =>
      SessionDecision(cfg, session, NeedsUpdate(store.session, store.timestamp, now), refresh)
  }

  /** The interceptor with no stored session: the cookie headers and the profile bootstrap. */
  function AnonymousDecision(cfg: Config, storedProfile: Option<Profile>, cookies: Option<string>,
                             profileBody: Option<Profile>): (d: Decision)
    ensures |d.headers| >= 1 && d.headers[0] == Header(UserAgent, cfg.userAgent)
    ensures !HasHeader(d.headers, Authorization)
            && !d.refreshCalled && !d.logout && d.storedSession.None?
    ensures HasHeader(d.headers, Cookie) <==> cookies.Some?
    ensures HasHeader(d.headers, CsrfToken) <==> cookies.Some?
    ensures cookies.None? ==> d.headers == [Header(UserAgent, cfg.userAgent)]
    ensures cookies.Some? ==>
              d.headers == [Header(UserAgent, cfg.userAgent), Header(Cookie, cookies.value),
                            Header(Referer, cfg.baseUrl),
                            Header(CsrfToken, CsrfFromCookies(cookies.value, cfg.csrfCookieName))]
    ensures d.storedProfile.Some? ==>
              storedProfile.None? && cookies.Some? && d.storedProfile == profileBody
    ensures storedProfile.None? && cookies.Some? ==> d.storedProfile == profileBody
  {
    var ua := Header(UserAgent, cfg.userAgent);
    match cookies
    case None => Decision([ua], None, None, false, false)
    case Some(c) =>
      var profile := if storedProfile.None? then profileBody else None;
      Decision(CookieHeaders(cfg, c, CsrfFromCookies(c, cfg.csrfCookieName)), None, profile, false, false)
  }

  /** The headers of an anonymous request that has a cookie string. */
  function CookieHeaders(cfg: Config, cookies: string, csrf: string): (hs: seq<Header>)
    ensures hs == [Header(UserAgent, cfg.userAgent), Header(Cookie, cookies),
                   Header(Referer, cfg.baseUrl), Header(CsrfToken, csrf)]
    ensures HasHeader(hs, Cookie) && HasHeader(hs, CsrfToken) && !HasHeader(hs, Authorization)
  {
    var hs := [Header(UserAgent, cfg.userAgent), Header(Cookie, cookies),
               Header(Referer, cfg.baseUrl), Header(CsrfToken, csrf)];
    assert hs[1].name == Cookie && hs[3].name == CsrfToken;
    hs
  }

  /** The interceptor with a stored session, `stale` telling whether it needs a refresh. */
  function SessionDecision(cfg: Config, session: AuthSession, stale: bool, refresh: RefreshOutcome)
    : (d: Decision)
    ensures |d.headers| >= 1 && d.headers[0] == Header(UserAgent, cfg.userAgent)
    ensures d.storedProfile.None?
    ensures d.refreshCalled <==> stale
    ensures !stale ==>
              d.headers == [Header(UserAgent, cfg.userAgent),
                            Header(Authorization, AuthHeaderValue(Some(session)))]
              && d.storedSession.None? && !d.logout
    ensures d.storedSession.Some? <==> stale && RefreshSucceeded(refresh)
    ensures d.storedSession.Some? ==>
              d.storedSession == refresh.body
              && d.headers == [Header(UserAgent, cfg.userAgent),
                               Header(Authorization, AuthHeaderValue(refresh.body))]
    ensures stale && !RefreshSucceeded(refresh) ==>
              d.headers == [Header(UserAgent, cfg.userAgent)] && d.storedSession.None?
    ensures d.logout <==> stale && !RefreshSucceeded(refresh) && RefreshRejected(refresh)
                          && refresh.errorBodyReadable
  {
    var ua := Header(UserAgent, cfg.userAgent);
    if !stale then
      Decision([ua, Header(Authorization, AuthHeaderValue(Some(session)))], None, None, false, false)
    else
      match refresh
      case RefreshThrew => Decision([ua], None, None, true, false)
      case RefreshAnswered(httpSuccessful, code, body, errorBodyReadable) =>
        if body.Some? && body.value.isSuccess then
          Decision([ua, Header(Authorization, AuthHeaderValue(body))], body, None, true, false)
        else
          Decision([ua], None, None, true, !httpSuccessful && code == 401 && errorBodyReadable)
  }

  /** A stale session's own token is never sent: the request carries either the refreshed
      token or none at all. */
  lemma StaleTokenNeverSent(cfg: Config, store: Store, now: int, cookies: Option<string>,
                            profileBody: Option<Profile>, refresh: RefreshOutcome)
    requires NeedsUpdate(store.session, store.timestamp, now)
    ensures forall h :: h in Intercept(cfg, store, now, cookies, profileBody, refresh).headers
                        && h.name == Authorization
                        ==> RefreshSucceeded(refresh) && h.value == AuthHeaderValue(refresh.body)
  {
  }

  /** A 2xx refresh answer never logs the user out, whatever its body. */
  lemma SuccessfulStatusNeverLogsOut(cfg: Config, store: Store, now: int, cookies: Option<string>,
                                     profileBody: Option<Profile>, body: Option<AuthSession>,
                                     code: int, readable: bool)
    ensures !Intercept(cfg, store, now, cookies, profileBody,
                       RefreshAnswered(true, code, body, readable)).logout
  {
  }

  /** The cookie string `sessionid=abc; csrftoken=xyz` yields the CSRF token `xyz`. */
  lemma CsrfExample()
    ensures CsrfFromCookies("sessionid=abc; csrftoken=xyz", "csrftoken") == "xyz"
  {
    var first, second := "sessionid=abc", " csrftoken=xyz";
    assert "sessionid=abc; csrftoken=xyz" == first + [';'] + second;
    SplitTwo(first, second, ';');
    ParseSessionExample();
    ParseCsrfExample();
    CsrfInSecondPair(first + [';'] + second, first, second, "csrftoken");
  }

  /** Two separator-free pieces joined by the separator split back into those pieces. */
  lemma SplitTwo(a: string, b: string, sep: char)
    requires sep !in a && sep !in b
    ensures Split(a + [sep] + b, sep) == [a, b]
  {
    var s := a + [sep] + b;
    assert s[..|a|] == a && s[|a| + 1..] == b;
    SplitAt(s, sep, |a|);
    SplitNoSep(b, sep);
  }

  /** A cookie string of two pairs where only the second is the CSRF cookie. */
  lemma CsrfInSecondPair(cookies: string, a: string, b: string, name: string)
    requires Split(cookies, ';') == [a, b]
    requires !PairNamed(a, name) && PairNamed(b, name)
    ensures CsrfFromCookies(cookies, name) == ParsePair(b).value.1
  {
    assert IsFirstWhere([a, b], IsCsrfPair(name), 1);
  }

  lemma ParseSessionExample()
    ensures ParsePair("sessionid=abc") == Some(("sessionid", "abc"))
  {
    var first := "sessionid=abc";
    assert first[..9] == "sessionid" && first[10..] == "abc";
    IndexOfCharAt(first, '=', 9);
    TrimOfTrimmed("sessionid", IsJavaTrimmable);
    TrimOfTrimmed("abc", IsJavaTrimmable);
  }

  lemma ParseCsrfExample()
    ensures ParsePair(" csrftoken=xyz") == Some(("csrftoken", "xyz"))
  {
    var second := " csrftoken=xyz";
    assert second[..10] == " csrftoken" && second[11..] == "xyz";
    IndexOfCharAt(second, '=', 10);
    assert " csrftoken"[1..] == "csrftoken";
    TrimOfTrimmed("csrftoken", IsJavaTrimmable);
    TrimDropsFirst(" csrftoken", IsJavaTrimmable);
    TrimOfTrimmed("xyz", IsJavaTrimmable);
  }

  /** Anonymous bootstrap: a cookie jar holding `sessionid=abc; csrftoken=xyz` is sent as the
      `Cookie` header and `xyz` as the CSRF header. */
  lemma CookieBootstrapExample(cfg: Config, profile: Option<Profile>, now: int,
                               profileBody: Option<Profile>, refresh: RefreshOutcome)
    requires cfg.csrfCookieName == "csrftoken"
    ensures Intercept(cfg, Store(None, UnknownTimestamp, profile), now,
                      Some("sessionid=abc; csrftoken=xyz"), profileBody, refresh).headers
            == [Header(UserAgent, cfg.userAgent), Header(Cookie, "sessionid=abc; csrftoken=xyz"),
                Header(Referer, cfg.baseUrl), Header(CsrfToken, "xyz")]
  {
    CsrfExample();
  }

  /** Splitting at a known first separator. */
  lemma {:induction false} SplitAt(s: string, sep: char, k: nat)
    requires k < |s| && s[k] == sep && sep !in s[..k]
    ensures Split(s, sep) == [s[..k]] + Split(s[k + 1..], sep)
    decreases k
  {
    if k > 0 {
      assert s[1..][..k - 1] == s[1..k];
      assert s[1..][k - 1 + 1..] == s[k + 1..];
      SplitAt(s[1..], sep, k - 1);
      assert s[..k] == [s[0]] + s[1..][..k - 1];
    }
  }

  /** A string without the separator is a single piece. */
  lemma {:induction false} SplitNoSep(s: string, sep: char)
    requires sep !in s
    ensures Split(s, sep) == [s]
    decreases |s|
  {
    if |s| > 0 {
      SplitNoSep(s[1..], sep);
      assert [s[0]] + s[1..] == s;
    }
  }

  /** The search for a character stops at its first occurrence. */
  lemma IndexOfCharAt(s: string, c: char, k: nat)
    requires k < |s| && s[k] == c && c !in s[..k]
    ensures IndexOfChar(s, c) == Some(k)
  {
  }

  /** A leading trimmable character does not change the trim. */
  lemma TrimDropsFirst(s: string, ws: char -> bool)
    requires |s| > 0 && ws(s[0])
    ensures Trim(s, ws) == Trim(s[1..], ws)
  {
  }
}
