/** The OAuth callback (app/auth/callback/route.ts): where the browser is
    sent after the identity provider returns. The query parameters are
    inputs (`None` where absent), and so are the outcome of exchanging the
    code for a session (`None` on success, the error's message otherwise)
    and whether the URL parser accepts `redirect_to`. */
module AuthCallback {
  import opened Options

  /** A redirect: the target (resolved against the request's origin) and
      the query parameters set on it, in order. */
  datatype Redirect = Redirect(target: string, query: seq<(string, string)>)

  /** A query parameter that is present and not empty. */
  predicate Given(p: Option<string>)
  {
    p.Some? && p.value != ""
  }

  /** What the handler answers: a redirect, or a failure (status 500) when
      resolving `redirect_to` against the origin throws. */
  datatype Reply = Redirected(to: Redirect) | ServerError

  /** The handler as written. `exchange` is only consulted when a code is
      present, as the exchange only happens then; `resolves` says whether
      the URL parser accepts `redirect_to` relative to the origin, and is
      only consulted on the final redirect. */
  function Callback(code: Option<string>, redirectTo: Option<string>, error: Option<string>,
                    errorDescription: Option<string>, exchange: Option<string>, resolves: bool): (r: Reply)
    ensures r.ServerError? <==> !Given(error) && Given(code) && exchange.None? && redirectTo.Some? && !resolves
    ensures Given(error) ==>
      r.Redirected? && r.to.target == "/login" && |r.to.query| >= 1 && r.to.query[0] == ("error", error.value)
    ensures !Given(error) && !Given(code) ==> r == Redirected(Redirect("/login", [("error", "Missing code")]))
    ensures !Given(error) && Given(code) && exchange.Some? ==> r == Redirected(Redirect("/login", [("error", exchange.value)]))
    ensures !Given(error) && Given(code) && exchange.None? && (redirectTo.None? || resolves) ==>
      r == Redirected(Redirect(redirectTo.GetOr("/dashboard"), []))
  {
    var next := redirectTo.GetOr("/dashboard");
    if Given(error) then
      Redirected(Redirect("/login", [("error", error.value)]
        + (if Given(errorDescription) then [("error_description", errorDescription.value)] else [])))
    else if !Given(code) then Redirected(Redirect("/login", [("error", "Missing code")]))
    else if exchange.Some? then Redirected(Redirect("/login", [("error", exchange.value)]))
    else if redirectTo.Some? && !resolves then ServerError
    else Redirected(Redirect(next, []))
  }

  /** An error from the provider wins over everything else: the redirect
      depends only on the error and its description, which is passed on
      exactly when it is given. */
  lemma ErrorTakesPrecedence(code: Option<string>, redirectTo: Option<string>, error: Option<string>,
                             errorDescription: Option<string>, exchange: Option<string>, resolves: bool,
                             code2: Option<string>, redirectTo2: Option<string>, exchange2: Option<string>,
                             resolves2: bool)
    requires Given(error)
    ensures Callback(code, redirectTo, error, errorDescription, exchange, resolves)
      == Callback(code2, redirectTo2, error, errorDescription, exchange2, resolves2)
    ensures var q := Callback(code, redirectTo, error, errorDescription, exchange, resolves).to.query;
      (|q| == 2 <==> Given(errorDescription)) && (|q| == 2 ==> q[1] == ("error_description", errorDescription.value))
  {
  }

  /** A target that stays on the request's origin when resolved against it:
      empty, or a path that starts with one `/` not followed by another `/`
      or `\`, and without the tab and newline characters that URL parsing
      deletes. */
  predicate StaysOnOrigin(target: string)
  {
    (forall k :: 0 <= k < |target| ==> target[k] != '\t' && target[k] != '\n' && target[k] != '\r')
    && (target == ""
        || (target[0] == '/' && (|target| == 1 || (target[1] != '/' && target[1] != '\\'))))
  }

  /** `redirect_to` is used as given, so a sign-in can end on another site. */
  lemma RedirectLeavesOrigin()
    ensures var r := Callback(Some("c"), Some("https://evil.example"), None, None, None, true);
      r.Redirected? && r.to.target == "https://evil.example" && !StaysOnOrigin(r.to.target)
    ensures var r := Callback(Some("c"), Some("//evil.example"), None, None, None, true);
      r.Redirected? && !StaysOnOrigin(r.to.target)
  {
    assert "https://evil.example"[0] == 'h';
    assert "//evil.example"[1] == '/';
  }

  /** The handler with `redirect_to` accepted only when it stays on the
      origin, and `/dashboard` otherwise; a path on the origin always
      resolves, so it never fails. */
  function SafeCallback(code: Option<string>, redirectTo: Option<string>, error: Option<string>,
                        errorDescription: Option<string>, exchange: Option<string>): (r: Reply)
    ensures r.Redirected? && StaysOnOrigin(r.to.target)
    ensures !Given(error) && Given(code) && exchange.None? && redirectTo.Some? && StaysOnOrigin(redirectTo.value) ==>
      r == Redirected(Redirect(redirectTo.value, []))
    ensures redirectTo.None? || StaysOnOrigin(redirectTo.value) ==>
      r == Callback(code, redirectTo, error, errorDescription, exchange, true)
  {
    var safe := if redirectTo.Some? && !StaysOnOrigin(redirectTo.value) then None else redirectTo;
    assert StaysOnOrigin("/login") && StaysOnOrigin("/dashboard");
    Callback(code, safe, error, errorDescription, exchange, true)
  }
}
