/**
 * The sign-out form action of `src/routes/auth/signout/+page.server.ts`:
 * sign out from Supabase, delete every `sb-` cookie, overwrite the two token
 * cookies with empty values that expire at the epoch, and redirect to
 * `/auth`. The redirect is thrown inside the `try`, so the action's own
 * `catch` receives it: `SignOutAction` models the action as written and
 * `SignOutActionCorrected` the evidently intended one, which lets the
 * redirect through.
 */
module SignOut {
  import opened Js
  import opened Seqs
  import opened Cookies

  /** What can be thrown inside the action: an `Error`, or SvelteKit's `Redirect`, which is not an `Error`. */
  datatype Thrown = ErrorThrown(message: string) | RedirectThrown(status: int, location: string)

  /** What `supabase.auth.signOut()` does: succeed, answer an error, or throw. */
  datatype SignOutReply = SignedOut | Refused(message: string) | Threw(err: Thrown)

  /** The action's answer: a `{ success: false, error }` object, or a redirect that reaches SvelteKit. */
  datatype ActionOutcome = ActionFailure(error: string) | ActionRedirect(status: int, location: string)

  const UnknownError: string := "Unknown error occurred"

  /** The `catch (err)` clause as written: an `Error`'s message, the fixed text for anything else. */
  function Caught(err: Thrown): ActionOutcome {
    ActionFailure(if err.ErrorThrown? then err.message else UnknownError)
  }

  /** The `catch` clause as intended: a redirect is passed on to SvelteKit, an `Error` is reported. */
  function CaughtCorrected(err: Thrown): ActionOutcome {
    if err.RedirectThrown? then ActionRedirect(err.status, err.location) else Caught(err)
  }

  /** The written `catch` turns every throw, the redirect included, into a failure object. */
  lemma RedirectIsSwallowed(err: Thrown)
    ensures Caught(err).ActionFailure?
    ensures Caught(RedirectThrown(303, "/auth")) == ActionFailure(UnknownError)
  {
  }

  /** The corrected `catch` answers a redirect exactly when one was thrown, and treats errors as before. */
  lemma RedirectPassesThrough(err: Thrown)
    ensures CaughtCorrected(err).ActionRedirect? <==> err.RedirectThrown?
    ensures err.RedirectThrown? ==> CaughtCorrected(err) == ActionRedirect(err.status, err.location)
    ensures err.ErrorThrown? ==> CaughtCorrected(err) == Caught(err)
  {
  }

  /**
   * `cookies.set(name, '', { path: '/', expires: new Date(0) })`. No `secure`
   * is given, so SvelteKit's default applies: `secureDefault` is true except
   * on `http://localhost`.
   */
  function Expired(name: string, secureDefault: bool): Cookie {
    Cookie(name, "", "/", Some(0), secureDefault)
  }

  const AccessToken: string := "sb-access-token"
  const RefreshToken: string := "sb-refresh-token"

  /** The jar once the `sb-` cookies are deleted and both token cookies overwritten. */
  function SignedOutJar(cs: seq<Cookie>, secureDefault: bool): seq<Cookie> {
    Upsert(Upsert(Filter(cs, NotSupabaseCookie), Expired(AccessToken, secureDefault)), Expired(RefreshToken, secureDefault))
  }

  /**
   * After sign-out, the jar holds the cookies that are not Supabase's, in
   * their order, followed by the two token cookies, empty and expired: no
   * other `sb-` cookie survives and no other cookie is touched.
   */
  lemma SignedOutJarShape(cs: seq<Cookie>, secureDefault: bool)
    ensures SignedOutJar(cs, secureDefault) == Filter(cs, NotSupabaseCookie) + [Expired(AccessToken, secureDefault), Expired(RefreshToken, secureDefault)]
    ensures forall c :: c in SignedOutJar(cs, secureDefault) && IsSupabaseCookie(c) ==> c.value == "" && c.expires == Some(0)
  {
    var kept := Filter(cs, NotSupabaseCookie);
    assert !HasName(kept, AccessToken);
    assert !HasName(kept + [Expired(AccessToken, secureDefault)], RefreshToken);
  }

  /**
   * The action as written. On a `signOut` error it answers the error and
   * leaves the cookies alone; on success it signs the jar out and then
   * catches its own redirect, so it answers 'Unknown error occurred'.
   */
  method SignOutAction(jar: CookieJar, reply: SignOutReply, secureDefault: bool) returns (r: ActionOutcome)
    requires jar.Valid()
    modifies jar
    ensures jar.Valid()
    ensures reply.Refused? ==> r == ActionFailure(reply.message) && jar.cookies == old(jar.cookies)
    ensures reply.Threw? ==> r == Caught(reply.err) && jar.cookies == old(jar.cookies)
    ensures reply.SignedOut? ==> r == ActionFailure(UnknownError) && jar.cookies == SignedOutJar(old(jar.cookies), secureDefault)
  {
    match reply {
      case Refused(message) =>
        r := ActionFailure(message);
      case Threw(err) =>
        r := Caught(err);
      case SignedOut =>
        jar.DeleteSupabaseCookies();
        jar.Set(Expired(AccessToken, secureDefault));
        jar.Set(Expired(RefreshToken, secureDefault));
        r := Caught(RedirectThrown(303, "/auth"));
    }
  }

  /** The action with a `catch` that lets SvelteKit's redirect through: a successful sign-out ends on `/auth`. */
  method SignOutActionCorrected(jar: CookieJar, reply: SignOutReply, secureDefault: bool) returns (r: ActionOutcome)
    requires jar.Valid()
    modifies jar
    ensures jar.Valid()
    ensures reply.Refused? ==> r == ActionFailure(reply.message) && jar.cookies == old(jar.cookies)
    ensures reply.Threw? ==> r == CaughtCorrected(reply.err) && jar.cookies == old(jar.cookies)
    ensures reply.SignedOut? ==> r == ActionRedirect(303, "/auth") && jar.cookies == SignedOutJar(old(jar.cookies), secureDefault)
  {
    match reply {
      case Refused(message) =>
        r := ActionFailure(message);
      case Threw(err) =>
        r := CaughtCorrected(err);
      case SignedOut =>
        jar.DeleteSupabaseCookies();
        jar.Set(Expired(AccessToken, secureDefault));
        jar.Set(Expired(RefreshToken, secureDefault));
        r := CaughtCorrected(RedirectThrown(303, "/auth"));
    }
  }
}
