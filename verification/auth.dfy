/**
 * The API-key dependency `verify_api_key` of main.py.  The request is
 * reduced to the two places a key may come from (the `X-API-KEY` header
 * and the `api_key` query parameter); the configured key, read from the
 * environment at start-up, is a parameter.
 */
module Auth {
  import opened Options

  datatype AuthError = MissingKey | InvalidKey

  datatype AuthResult = Rejected(error: AuthError) | Accepted(key: string)

  /** Python truthiness of a `str | None`: neither None nor the empty string. */
  predicate Present(s: Option<string>) {
    s.Some? && s.value != ""
  }

  /**
   * The key a request offers: `header or query`.  An empty header is falsy,
   * so the query parameter is used in its place.
   */
  function Offered(header: Option<string>, query: Option<string>): Option<string> {
    if Present(header) then header else query
  }

  function VerifyApiKey(header: Option<string>, query: Option<string>, configured: Option<string>): (r: AuthResult)
    // missing exactly when neither place holds a non-empty key
    ensures r == Rejected(MissingKey) <==> !Present(header) && !Present(query)
    // accepted exactly when the chosen key, header first, equals the configured one
    ensures r.Accepted? <==>
              (Present(header) && header == configured) ||
              (!Present(header) && Present(query) && query == configured)
    ensures r.Accepted? ==> configured == Some(r.key) && r.key != ""
    // an unset configured key locks every caller out
    ensures configured.None? ==> r.Rejected?
  {
    var key := Offered(header, query);
    if !Present(key) then Rejected(MissingKey)
    else if key != configured then Rejected(InvalidKey)
    else Accepted(key.value)
  }

  /** A non-empty header decides alone: the query parameter is never consulted. */
  lemma HeaderTakesPrecedence(header: Option<string>, q1: Option<string>, q2: Option<string>, configured: Option<string>)
    requires Present(header)
    ensures VerifyApiKey(header, q1, configured) == VerifyApiKey(header, q2, configured)
    ensures VerifyApiKey(header, q1, configured) ==
            (if header == configured then Accepted(header.value) else Rejected(InvalidKey))
  {
  }

  /** An empty header behaves exactly like an absent one. */
  lemma EmptyHeaderFallsThrough(query: Option<string>, configured: Option<string>)
    ensures VerifyApiKey(Some(""), query, configured) == VerifyApiKey(None, query, configured)
    ensures VerifyApiKey(Some(""), query, configured) ==
            (if !Present(query) then Rejected(MissingKey)
             else if query == configured then Accepted(query.value)
             else Rejected(InvalidKey))
  {
  }
}
