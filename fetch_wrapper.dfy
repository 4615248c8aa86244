/**
 * The hand-rolled fetch wrapper (`src/utils/fetchWrapper.ts`). `fetchWithAuth`
 * writes the bearer header into the caller's own `options` object, sends the
 * request, and turns a 401 into the session-expiry recovery and a failure.
 * `fetchWithAuthJSON` also fails on any other non-ok status, preferring the
 * server's `message` and falling back to `HTTP <status>: <statusText>`.
 */
module FetchWrapper {
  import opened Wrappers
  import Js
  import Auth
  import Web
  import opened Browser

  /** A `Record<string, string>` of headers; the caller may share it. */
  class HeaderRecord {
    var entries: map<string, string>

    constructor (entries: map<string, string>)
      ensures this.entries == entries
    {
      this.entries := entries;
    }
  }

  /** The caller's `RequestInit`; `headers` may be missing. */
  class RequestInit {
    var headers: HeaderRecord?
    var verb: Option<Web.Verb>
    var body: Option<Web.Body>

    constructor (headers: HeaderRecord?, verb: Option<Web.Verb>, body: Option<Web.Body>)
      ensures this.headers == headers && this.verb == verb && this.body == body
    {
      this.headers := headers;
      this.verb := verb;
      this.body := body;
    }
  }

  /** `handle401Error()`: remove the token, the role and the user id, show
      the expiry message, go to `/login`. */
  method Handle401Error(w: Window)
    modifies w
    ensures w.localStorage == ClearSession(old(w.localStorage))
    ensures w.effects == old(w.effects) + ExpiryEffects
  {
    w.RemoveItem(TokenKey);
    w.RemoveItem(RoleKey);
    w.RemoveItem(UserIdKey);
    w.ShowMessage(Error, SessionExpiredText);
    w.Navigate(LoginPath);
  }

  /** The header step of `fetchWithAuth`: with a truthy token, a missing
      header record is created empty and `Authorization` is set in it,
      overwriting any value the caller put there; the caller's other headers
      stay. Without one, nothing is touched. */
  method AddAuthHeader(w: Window, options: RequestInit)
    modifies options, options.headers
    ensures var token := w.GetItem(TokenKey);
      && (!Auth.HasToken(token) ==>
            options.headers == old(options.headers)
            && (options.headers != null ==> options.headers.entries == old(options.headers.entries)))
      && (Auth.HasToken(token) && old(options.headers) == null ==>
            options.headers != null && fresh(options.headers)
            && options.headers.entries == map[Auth.AuthorizationHeader := Auth.Bearer(token.value)])
      && (Auth.HasToken(token) && old(options.headers) != null ==>
            options.headers == old(options.headers)
            && options.headers.entries == Auth.AttachIfTruthy(old(options.headers.entries), token))
    ensures options.verb == old(options.verb) && options.body == old(options.body)
  {
    var token := w.GetItem(TokenKey);
    if Auth.HasToken(token) && options.headers == null {
      options.headers := new HeaderRecord(map[]);
    }
    if Auth.HasToken(token) {
      options.headers.entries := options.headers.entries[Auth.AuthorizationHeader := Auth.Bearer(token.value)];
    }
  }

  const UnauthorizedText: string := "Unauthorized"

  /** `fetchWithAuth(url, options)`; `sent` is how the `fetch` call settles.
      A 401 runs the recovery and fails with `Error('Unauthorized')`; any other
      response, 4xx and 5xx included, is handed back; a rejected fetch is
      rethrown unchanged, and storage is left alone. */
  method FetchWithAuth(w: Window, url: string, options: RequestInit, sent: Web.Outcome)
    returns (r: Result<Web.Response, Js.Exception>)
    modifies w, options, options.headers
    ensures sent.Delivered? && sent.response.status == 401 ==>
      && r == Failure(Js.Error(UnauthorizedText))
      && w.localStorage == ClearSession(old(w.localStorage))
      && w.effects == old(w.effects) + ExpiryEffects
    ensures sent.Delivered? && sent.response.status != 401 ==>
      r == Success(sent.response) && w.localStorage == old(w.localStorage) && w.effects == old(w.effects)
    ensures sent.Rejected? ==>
      r == Failure(sent.error) && w.localStorage == old(w.localStorage) && w.effects == old(w.effects)
    ensures var token := old(w.GetItem(TokenKey));
      && (!Auth.HasToken(token) ==>
            options.headers == old(options.headers)
            && (options.headers != null ==> options.headers.entries == old(options.headers.entries)))
      && (Auth.HasToken(token) && old(options.headers) == null ==>
            options.headers != null && fresh(options.headers)
            && options.headers.entries == map[Auth.AuthorizationHeader := Auth.Bearer(token.value)])
      && (Auth.HasToken(token) && old(options.headers) != null ==>
            options.headers == old(options.headers)
            && options.headers.entries == Auth.AttachIfTruthy(old(options.headers.entries), token))
    ensures options.verb == old(options.verb) && options.body == old(options.body)
  {
    AddAuthHeader(w, options);
    match sent
    case Rejected(e) =>
      r := Failure(e);
    case Delivered(response) =>
      if response.status == 401 {
        Handle401Error(w);
        r := Failure(Js.Error(UnauthorizedText));
      } else {
        r := Success(response);
      }
  }

  /** `HTTP <status>: <statusText>`. */
  function StatusMessage(response: Web.Response): (m: string)
    ensures |m| > 5 && m[..5] == "HTTP "
  {
    "HTTP " + Js.NumberToString(response.status) + ": " + response.statusText
  }

  /** `errorData.message` is truthy: the server's own message wins. */
  predicate HasTruthyMessage(errorData: Js.JsValue) {
    errorData.Object? && "message" in errorData.props && Js.Truthy(errorData.props["message"])
  }

  /** The error `fetchWithAuthJSON` throws for a non-ok response, as written:
      the body's `message` when it is truthy, else the status message; an
      unparsable body counts as `{}`. A body that parses to `null` makes the
      read of `errorData.message` itself throw a `TypeError`. */
  function ErrorFor(response: Web.Response): (e: Js.Exception)
    ensures e.Error? || e == Js.TypeError("message")
    ensures e.TypeError? <==> response.body == Some(Js.Null) || response.body == Some(Js.Undefined)
    ensures response.body.Some? && HasTruthyMessage(response.body.value)
            ==> e == Js.Error(Js.ToJsString(response.body.value.props["message"]))
    ensures !e.TypeError? && !(response.body.Some? && HasTruthyMessage(response.body.value))
            ==> e == Js.Error(StatusMessage(response))
  {
    var errorData := if response.body.Some? then response.body.value else Js.Object(map[]);
    match Js.GetProperty(errorData, "message")
    case None => Js.TypeError("message")
    case Some(message) =>
      Js.Error(if Js.Truthy(message) then Js.ToJsString(message) else StatusMessage(response))
  }

  /** `fetchWithAuthJSON(url, options)`: the parsed body of an ok response,
      with no check of any application-level `code`; a failure of
      `fetchWithAuth` unchanged; `ErrorFor` on any other status. */
  method FetchWithAuthJSON(w: Window, url: string, options: RequestInit, sent: Web.Outcome)
    returns (r: Result<Js.JsValue, Js.Exception>)
    modifies w, options, options.headers
    ensures sent.Rejected? ==>
      r == Failure(sent.error) && w.localStorage == old(w.localStorage) && w.effects == old(w.effects)
    ensures sent.Delivered? && sent.response.status == 401 ==>
      && r == Failure(Js.Error(UnauthorizedText))
      && w.localStorage == ClearSession(old(w.localStorage))
      && w.effects == old(w.effects) + ExpiryEffects
    ensures sent.Delivered? && sent.response.status != 401 && !Web.Ok(sent.response.status) ==>
      r == Failure(ErrorFor(sent.response))
    ensures sent.Delivered? && Web.Ok(sent.response.status) ==>
      r == (match sent.response.body
            case Some(data) => Success(data)
            case None => Failure(Js.SyntaxError))
    ensures sent.Delivered? && sent.response.status != 401 ==>
      w.localStorage == old(w.localStorage) && w.effects == old(w.effects)
    ensures var token := old(w.GetItem(TokenKey));
      && (!Auth.HasToken(token) ==>
            options.headers == old(options.headers)
            && (options.headers != null ==> options.headers.entries == old(options.headers.entries)))
      && (Auth.HasToken(token) && old(options.headers) == null ==>
            options.headers != null && fresh(options.headers)
            && options.headers.entries == map[Auth.AuthorizationHeader := Auth.Bearer(token.value)])
      && (Auth.HasToken(token) && old(options.headers) != null ==>
            options.headers == old(options.headers)
            && options.headers.entries == Auth.AttachIfTruthy(old(options.headers.entries), token))
    ensures options.verb == old(options.verb) && options.body == old(options.body)
  {
    var response := FetchWithAuth(w, url, options, sent);
    if response.Failure? {
      return Failure(response.error);
    }
    var res := response.value;
    if !Web.Ok(res.status) {
      return Failure(ErrorFor(res));
    }
    match res.body
    case None =>
      r := Failure(Js.SyntaxError);
    case Some(data) =>
      r := Success(data);
  }

  /** The status line of a 500 response. */
  lemma StatusLine500(statusText: string, body: Option<Js.JsValue>)
    ensures StatusMessage(Web.Response(500, statusText, body)) == "HTTP 500: " + statusText
  {
    assert Js.NatToString(50) == "50";
    assert Js.NumberToString(500) == "500";
    assert "HTTP " + "500" + ": " == "HTTP 500: ";
  }

  /** The status line of a 400 response. */
  lemma StatusLine400(statusText: string, body: Option<Js.JsValue>)
    ensures StatusMessage(Web.Response(400, statusText, body)) == "HTTP 400: " + statusText
  {
    assert Js.NatToString(40) == "40";
    assert Js.NumberToString(400) == "400";
    assert "HTTP " + "400" + ": " == "HTTP 400: ";
  }

  /** An unparsable error body gives `HTTP <status>: <statusText>`. */
  lemma UnparsableBodyExample(statusText: string)
    ensures ErrorFor(Web.Response(500, statusText, None)) == Js.Error("HTTP 500: " + statusText)
  {
    StatusLine500(statusText, None);
  }

  /** A truthy server message wins over the status. */
  lemma ServerMessageExample(statusText: string)
    ensures ErrorFor(Web.Response(404, statusText, Some(Js.Object(map["message" := Js.Str("no such file")]))))
         == Js.Error("no such file")
  {
  }

  /** An empty server message falls back to the status. */
  lemma EmptyMessageExample(statusText: string)
    ensures ErrorFor(Web.Response(400, statusText, Some(Js.Object(map["message" := Js.Str("")]))))
         == Js.Error("HTTP 400: " + statusText)
  {
    StatusLine400(statusText, Some(Js.Object(map["message" := Js.Str("")])));
  }

  /** The fallback message names the status: its digits read back as it. */
  lemma {:induction false} StatusMessageNamesStatus(response: Web.Response)
    requires response.status >= 0
    ensures var digits := Js.NatToString(response.status);
            StatusMessage(response) == "HTTP " + digits + ": " + response.statusText
            && Js.DigitsValue(digits) == response.status
  {
    Js.NatToStringValue(response.status);
  }

  /** The evidently intended fallback, `errorData?.message || ...`: a body of
      `null` falls back like an unparsable one. */
  function IntendedErrorFor(response: Web.Response): (e: Js.Exception)
    ensures e.Error?
    ensures ErrorFor(response).TypeError? ==> e == Js.Error(StatusMessage(response))
    ensures !ErrorFor(response).TypeError? ==> e == ErrorFor(response)
  {
    var errorData := if response.body.Some? then response.body.value else Js.Object(map[]);
    match Js.GetProperty(errorData, "message")
    case None => Js.Error(StatusMessage(response))
    case Some(message) =>
      Js.Error(if Js.Truthy(message) then Js.ToJsString(message) else StatusMessage(response))
  }

  /** As written, a non-ok response whose body is JSON `null` fails with a
      `TypeError` instead of the status message. */
  lemma NullBodyThrowsTypeError(statusText: string)
    ensures ErrorFor(Web.Response(500, statusText, Some(Js.Null))) == Js.TypeError("message")
    ensures IntendedErrorFor(Web.Response(500, statusText, Some(Js.Null))) == Js.Error("HTTP 500: " + statusText)
  {
    StatusLine500(statusText, Some(Js.Null));
  }
}
