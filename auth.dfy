/** The administrator check shared by every mutating endpoint. The configured secret,
    read from the environment by the source, is a parameter here. */
module Auth {
  import opened Wrappers
  import opened Text

  const BearerPrefix: string := "Bearer "

  /** The message of the error raised when no secret is configured. */
  const NotConfiguredMessage: string := "ADMIN_PASSWORD not configured"

  /** What the check produces: a verdict, or the configuration error it throws. */
  datatype AuthResult = Verdict(granted: bool) | NotConfigured

  /** `!adminPassword` is false: the variable is set and non-empty. */
  predicate Configured(password: Option<string>) {
    password.Some? && password.value != ""
  }

  /** `verifyAdmin`: an unconfigured secret is an error whatever the header; otherwise the
      request is granted exactly when its header is "Bearer " followed by the secret. */
  function VerifyAdmin(authorization: Option<string>, password: Option<string>): (r: AuthResult)
    ensures r.NotConfigured? <==> !Configured(password)
    ensures r.Verdict? ==> (r.granted <==> authorization == Some(BearerPrefix + password.value))
  {
    if !Configured(password) then NotConfigured
    else if authorization.None? || authorization.value == "" || !HasPrefix(BearerPrefix, authorization.value) then
      Verdict(false)
    else
      // `authHeader.substring(7)`: 7 is the length of "Bearer "
      var token := authorization.value[7..];
      assert authorization.value == BearerPrefix + token;
      Verdict(token == password.value)
  }

  /** A request without an authorization header is refused. */
  lemma MissingHeaderRefused(password: Option<string>)
    requires Configured(password)
    ensures VerifyAdmin(None, password) == Verdict(false)
  {
  }

  /** A header without the exact, case-sensitive "Bearer " prefix is refused. */
  lemma WrongSchemeRefused(header: string, password: Option<string>)
    requires Configured(password)
    requires !HasPrefix(BearerPrefix, header)
    ensures VerifyAdmin(Some(header), password) == Verdict(false)
  {
  }

  /** A header with the prefix is granted exactly when the rest of it is the secret. */
  lemma TokenCompared(header: string, password: Option<string>)
    requires Configured(password)
    requires HasPrefix(BearerPrefix, header)
    ensures VerifyAdmin(Some(header), password) == Verdict(header[7..] == password.value)
  {
  }

  /** The header "Bearer " + p is granted exactly when p is the secret. */
  lemma BearerTokenAccepted(p: string, password: Option<string>)
    requires Configured(password)
    ensures VerifyAdmin(Some(BearerPrefix + p), password) == Verdict(p == password.value)
  {
  }

  /** A bare "Bearer " with an empty token is never granted, because a configured secret is non-empty. */
  lemma EmptyTokenRefused(password: Option<string>)
    requires Configured(password)
    ensures VerifyAdmin(Some(BearerPrefix), password) == Verdict(false)
  {
  }

  /** Whatever the header, an unconfigured secret raises the configuration error. */
  lemma UnconfiguredAlwaysFails(authorization: Option<string>, password: Option<string>)
    requires password.None? || password == Some("")
    ensures VerifyAdmin(authorization, password) == NotConfigured
  {
  }
}
