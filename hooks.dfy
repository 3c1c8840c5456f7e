/**
 * The server hooks of `src/hooks.server.ts`: `safeGetSession`, which clears
 * the Supabase cookies on a sign-out POST and trusts a session only once the
 * user behind it is confirmed; the response-header filter; and `authGuard`,
 * which decides, from the path, the method and whether there is a session,
 * whether a request goes through, gets a 401, or is redirected.
 */
module Hooks {
  import opened Js
  import opened Seqs
  import opened Cookies

  // ---------------------------------------------------------------- routing decision

  predicate IsApiRoute(path: string) {
    StartsWith(path, "/api/")
  }

  predicate IsAuthRoute(path: string) {
    StartsWith(path, "/auth/") || path == "/auth"
  }

  predicate IsSignOutRoute(path: string) {
    path == "/auth/signout"
  }

  datatype Outcome = Resolve | JsonResponse(status: int, body: string) | Redirect(status: int, location: string)

  const UnauthorizedBody: string := "{\"error\":\"Unauthorized\"}"

  /** `authGuard` once `safeGetSession` has answered. */
  function AuthGuard(path: string, httpMethod: string, hasSession: bool): Outcome {
    if IsSignOutRoute(path) && httpMethod == "POST" then Resolve
    else if !hasSession && !IsAuthRoute(path) then
      if IsApiRoute(path) then JsonResponse(401, UnauthorizedBody) else Redirect(303, "/auth")
    else if hasSession && IsAuthRoute(path) && !Contains(path, "/auth/confirm") then Redirect(303, "/")
    else Resolve
  }

  /** A POST to `/auth/signout` always goes through. */
  lemma SignOutPostPasses(hasSession: bool)
    ensures AuthGuard("/auth/signout", "POST", hasSession) == Resolve
  {
  }

  /**
   * Without a session, a request goes through exactly when its path is an
   * auth route; an API path gets a 401 with `{"error":"Unauthorized"}`, any
   * other path a 303 to `/auth`.
   */
  lemma WithoutSession(path: string, httpMethod: string)
    ensures AuthGuard(path, httpMethod, false) == Resolve <==> IsAuthRoute(path)
    ensures !IsAuthRoute(path) && IsApiRoute(path) ==> AuthGuard(path, httpMethod, false) == JsonResponse(401, UnauthorizedBody)
    ensures !IsAuthRoute(path) && !IsApiRoute(path) ==> AuthGuard(path, httpMethod, false) == Redirect(303, "/auth")
  {
  }

  /**
   * With a session, an auth route whose path does not contain `/auth/confirm`
   * is redirected to `/` (the sign-out POST aside); every other request goes
   * through.
   */
  lemma WithSession(path: string, httpMethod: string)
    ensures !(IsSignOutRoute(path) && httpMethod == "POST") && IsAuthRoute(path) && !Contains(path, "/auth/confirm")
            ==> AuthGuard(path, httpMethod, true) == Redirect(303, "/")
    ensures !IsAuthRoute(path) || Contains(path, "/auth/confirm") || (IsSignOutRoute(path) && httpMethod == "POST")
            ==> AuthGuard(path, httpMethod, true) == Resolve
  {
  }

  /** The confirmation pages under `/auth/confirm` are reachable with and without a session. */
  lemma ConfirmAlwaysReachable(path: string, httpMethod: string, hasSession: bool)
    requires StartsWith(path, "/auth/confirm")
    ensures AuthGuard(path, httpMethod, hasSession) == Resolve
  {
    assert path[..6] == path[..13][..6];
    ContainsPrefix(path, "/auth/confirm");
  }

  /** Following a redirect with the same session state lands on a page that goes through: there is no redirect loop. */
  lemma RedirectsSettle(path: string, httpMethod: string, hasSession: bool)
    ensures AuthGuard(path, httpMethod, hasSession).Redirect? ==>
      AuthGuard(AuthGuard(path, httpMethod, hasSession).location, "GET", hasSession) == Resolve
  {
    if AuthGuard(path, httpMethod, hasSession).Redirect? {
      if hasSession {
        assert !StartsWith("/", "/auth/");
      } else {
        assert StartsWith("/auth", "/auth");
      }
    }
  }

  // ---------------------------------------------------------------- session

  datatype Session = Session(accessToken: string)

  datatype User = User(id: string)

  /** What `getUser()` answers: the user, or an error when the JWT does not validate. */
  datatype UserCheck = UserOk(user: User) | UserError

  datatype SessionInfo = SessionInfo(session: Option<Session>, user: Option<User>)

  /** The answer of `safeGetSession` on any request but a sign-out POST. */
  function CheckedSession(session: Option<Session>, check: UserCheck): SessionInfo {
    if session.None? then SessionInfo(None, None)
    else if check.UserError? then SessionInfo(None, None)
    else SessionInfo(session, Some(check.user))
  }

  /**
   * A session is returned only when one is present and `getUser` confirms
   * it; otherwise session and user are both null. Session and user are
   * present together or not at all.
   */
  lemma CheckedSessionSpec(session: Option<Session>, check: UserCheck)
    ensures var info := CheckedSession(session, check);
      && (info.session.Some? <==> session.Some? && check.UserOk?)
      && (info.session.Some? ==> info.session == session && info.user == Some(check.user))
      && (info.session.Some? <==> info.user.Some?)
  {
  }

  /**
   * `safeGetSession`. `session` is what `getSession()` found in the cookies
   * and `check` what `getUser()` would answer.
   */
  method SafeGetSession(jar: CookieJar, path: string, httpMethod: string, session: Option<Session>, check: UserCheck)
    returns (info: SessionInfo)
    requires jar.Valid()
    modifies jar
    ensures jar.Valid()
    ensures IsSignOutRoute(path) && httpMethod == "POST" ==>
      info == SessionInfo(None, None) && jar.cookies == Filter(old(jar.cookies), NotSupabaseCookie)
    ensures !(IsSignOutRoute(path) && httpMethod == "POST") ==>
      info == CheckedSession(session, check) && jar.cookies == old(jar.cookies)
  {
    if IsSignOutRoute(path) && httpMethod == "POST" {
      jar.DeleteSupabaseCookies();
      return SessionInfo(None, None);
    }
    if session.None? {
      return SessionInfo(None, None);
    }
    if check.UserError? {
      return SessionInfo(None, None);
    }
    return SessionInfo(session, Some(check.user));
  }

  /** `sequence(supabase, authGuard)`: the guard decides on the session `safeGetSession` returns. */
  method Handle(jar: CookieJar, path: string, httpMethod: string, session: Option<Session>, check: UserCheck)
    returns (outcome: Outcome)
    requires jar.Valid()
    modifies jar
    ensures jar.Valid()
    ensures IsSignOutRoute(path) && httpMethod == "POST" ==> jar.cookies == Filter(old(jar.cookies), NotSupabaseCookie)
    ensures !(IsSignOutRoute(path) && httpMethod == "POST") ==> jar.cookies == old(jar.cookies)
    ensures outcome == AuthGuard(path, httpMethod, session.Some? && check.UserOk?)
  {
    var info := SafeGetSession(jar, path, httpMethod, session, check);
    outcome := AuthGuard(path, httpMethod, info.session.Some?);
  }

  /** A session whose user cannot be confirmed opens no page outside the auth routes. */
  lemma UnconfirmedSessionIsNoSession(path: string, httpMethod: string, session: Option<Session>)
    ensures AuthGuard(path, httpMethod, CheckedSession(session, UserError).session.Some?) == AuthGuard(path, httpMethod, false)
    ensures AuthGuard(path, httpMethod, CheckedSession(session, UserError).session.Some?) == Resolve ==> IsAuthRoute(path)
  {
  }

  // ---------------------------------------------------------------- response headers

  /** `filterSerializedResponseHeaders(name)`. */
  predicate SerializedHeader(name: string) {
    name == "content-range" || name == "x-supabase-api-version"
  }

  /** Exactly the two headers the Supabase client reads pass; the comparison is case-sensitive. */
  lemma OnlySupabaseHeadersPass(name: string)
    ensures SerializedHeader(name) <==> name in {"content-range", "x-supabase-api-version"}
    ensures SerializedHeader(name) ==> |name| == 13 || |name| == 22
    ensures SerializedHeader("content-range") && SerializedHeader("x-supabase-api-version")
    ensures !SerializedHeader("Content-Range") && !SerializedHeader("content-type")
  {
    assert "Content-Range"[0] != "content-range"[0];
  }
}
