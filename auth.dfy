/**
 * The bearer-token rule every HTTP path of the client applies, in its two
 * variants: most copies attach `Authorization` when the stored token is
 * truthy (`if (token)`), the axios `service` instance when it is not `null`
 * (`if (token !== null)`). The variants disagree on exactly one stored value,
 * the empty string.
 */
module Auth {
  import opened Wrappers
  import Js

  const AuthorizationHeader: string := "Authorization"
  const ContentTypeHeader: string := "Content-Type"
  const JsonContentType: string := "application/json"

  /** The header value for a token. */
  function Bearer(token: string): (r: string)
    ensures |r| == |token| + 7 && r[..7] == "Bearer " && r[7..] == token
  {
    "Bearer " + token
  }

  /** `if (token)` on the result of `localStorage.getItem("token")`. */
  predicate HasToken(token: Option<string>) {
    Js.Truthy(Js.FromItem(token))
  }

  /** The result of a `getAuthHeaders()`: the JSON content type, an
      `Authorization` header exactly when the token is truthy, nothing else. */
  predicate IsJsonAuthHeaders(h: map<string, string>, token: Option<string>) {
    && h.Keys == {ContentTypeHeader} + (if HasToken(token) then {AuthorizationHeader} else {})
    && h[ContentTypeHeader] == JsonContentType
    && (HasToken(token) ==> h[AuthorizationHeader] == Bearer(token.value))
  }

  /** The headers after an `if (token) headers.Authorization = ...` step. */
  function AttachIfTruthy(h: map<string, string>, token: Option<string>): (r: map<string, string>)
    ensures HasToken(token) ==> AuthorizationHeader in r && r[AuthorizationHeader] == Bearer(token.value)
    ensures !HasToken(token) ==> r == h
    ensures r.Keys - {AuthorizationHeader} == h.Keys - {AuthorizationHeader}
    ensures forall k :: k in h && k != AuthorizationHeader ==> k in r && r[k] == h[k]
  {
    if HasToken(token) then h[AuthorizationHeader := Bearer(token.value)] else h
  }

  /** The headers after an `if (token !== null) headers.Authorization = ...` step. */
  function AttachIfNotNull(h: map<string, string>, token: Option<string>): (r: map<string, string>)
    ensures token.Some? ==> AuthorizationHeader in r && r[AuthorizationHeader] == Bearer(token.value)
    ensures token.None? ==> r == h
    ensures r.Keys - {AuthorizationHeader} == h.Keys - {AuthorizationHeader}
    ensures forall k :: k in h && k != AuthorizationHeader ==> k in r && r[k] == h[k]
  {
    if token.Some? then h[AuthorizationHeader := Bearer(token.value)] else h
  }

  /** The two rules agree on every stored value but the empty string, for
      which the `!== null` rule sends the bare `Bearer ` and the truthy rule
      leaves the headers alone. */
  lemma AttachRulesDifferOnlyOnEmptyToken(h: map<string, string>, token: Option<string>)
    ensures token != Some("") ==> AttachIfTruthy(h, token) == AttachIfNotNull(h, token)
    ensures token == Some("") ==> AttachIfTruthy(h, token) == h
    ensures token == Some("") ==> AttachIfNotNull(h, token)[AuthorizationHeader] == "Bearer "
  {
    Js.TruthyItem(token);
  }
}
