/** The redirect decision of app/auth/callback/route.ts: where the browser is
    sent after the OAuth provider returns with a code. The code exchange is
    an abstract result supplied by the caller. */
module AuthCallback {
  import opened Nullable

  const MissingCodeUrl: string := "/?error=missing_code"
  const AuthErrorUrl: string := "/?error=auth_error"
  const Home: string := "/"

  /** What the route did: the redirect target, and whether it asked the
      auth service to exchange the code. */
  datatype Outcome = Outcome(target: string, exchangeAttempted: bool)

  /** `next.startsWith('/')`. */
  predicate IsRelative(path: string) {
    |path| > 0 && path[0] == '/'
  }

  /** `searchParams.get('next') || '/'`, then kept only when relative. */
  function SafeNext(next: Option<string>): (r: string)
    ensures IsRelative(r)
    ensures r == Home || (next.Some? && r == next.value)
  {
    var n := if Truthy(next) then next.value else Home;
    if IsRelative(n) then n else Home
  }

  /** `GET`: `exchangeFailed` is the error the code exchange reports; it is
      consulted only when a code is present. */
  function Callback(code: Option<string>, next: Option<string>, exchangeFailed: bool): (o: Outcome)
    ensures !Truthy(code) ==> o == Outcome(MissingCodeUrl, false)
    ensures Truthy(code) ==> o.exchangeAttempted
    ensures Truthy(code) && exchangeFailed ==> o.target == AuthErrorUrl
    ensures Truthy(code) && !exchangeFailed ==>
              o.target == (if Truthy(next) && IsRelative(next.value) then next.value else Home)
  {
    if !Truthy(code) then Outcome(MissingCodeUrl, false)
    else if exchangeFailed then Outcome(AuthErrorUrl, true)
    else Outcome(SafeNext(next), true)
  }

  /** Without a code the exchange result plays no part. */
  lemma MissingCodeIgnoresExchange(code: Option<string>, next: Option<string>)
    requires !Truthy(code)
    ensures Callback(code, next, true) == Callback(code, next, false)
  {
  }

  /** Every target is one of the two error pages, the home page, or the
      caller's `next` when that starts with `/`; so every target is a path
      on this site's origin or a `//` reference (see below). */
  lemma TargetIsOneOf(code: Option<string>, next: Option<string>, exchangeFailed: bool)
    ensures var t := Callback(code, next, exchangeFailed).target;
            || t == MissingCodeUrl || t == AuthErrorUrl || t == Home
            || (next.Some? && t == next.value && IsRelative(t))
    ensures IsRelative(Callback(code, next, exchangeFailed).target)
  {
  }

  /** An absolute URL in `next` is replaced by the home page. */
  lemma AbsoluteNextRejected(code: string)
    requires code != ""
    ensures Callback(Some(code), Some("https://evil.com"), false).target == Home
  {
    assert "https://evil.com"[0] == 'h';
  }

  /** A missing or empty `next` lands on the home page. */
  lemma EmptyNextGoesHome(code: string, next: Option<string>)
    requires code != "" && !Truthy(next)
    ensures Callback(Some(code), next, false).target == Home
  {
  }

  /** The check only looks at the first character, so a protocol-relative
      reference such as `//evil.com` passes it unchanged. */
  lemma ProtocolRelativeNextPasses(code: string)
    requires code != ""
    ensures Callback(Some(code), Some("//evil.com"), false).target == "//evil.com"
  {
  }
}
