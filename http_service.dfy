/**
 * The shared axios instance `service` (`src/http/index.ts`): its request
 * interceptor attaches the bearer header whenever a token is stored at all
 * (`token !== null`), its success handler unwraps `res.data`, and its error
 * handler rejects every error with the empty string, with no 401 handling.
 */
module HttpService {
  import opened Wrappers
  import Js
  import Auth
  import Axios
  import KnowHubApi
  import opened Browser

  /** `service`: the base URL and the default headers, both fixed elsewhere
      and given here as parameters; `withCredentials` is false. */
  function Service(baseURL: string, header: map<string, string>): (i: Axios.Instance)
    ensures i.baseURL == baseURL && i.headers == header
  {
    Axios.Instance(baseURL, header)
  }

  /** The request interceptor: with any stored token, the empty one
      included, `Authorization` is set; only the headers change. */
  method RequestInterceptor(w: Window, config: Axios.RequestConfig) returns (handed: Axios.RequestConfig)
    modifies config
    ensures handed == config
    ensures config.headers == Auth.AttachIfNotNull(old(config.headers), w.GetItem(TokenKey))
    ensures config.url == old(config.url) && config.verb == old(config.verb) && config.data == old(config.data)
  {
    var token := w.GetItem(TokenKey);
    if token.Some? {
      config.headers := config.headers[Auth.AuthorizationHeader := Auth.Bearer(token.value)];
    }
    handed := config;
  }

  /** The success handler: the caller receives the body, not the response. */
  function OnFulfilled(res: Axios.Response): (v: Js.JsValue)
    ensures v == res.data
  {
    res.data
  }

  /** The error handler: whatever went wrong, the promise rejects with `""`. */
  function OnRejected(error: Axios.Error): (e: Js.Exception)
    ensures e == Js.Thrown(Js.Str(""))
  {
    var message := "";
    Js.Thrown(Js.Str(message))
  }

  /** Every error, a 401 included, rejects with the same value: the status
      and message are lost to the caller, and no recovery runs. */
  lemma RejectionIgnoresError(e1: Axios.Error, e2: Axios.Error)
    ensures OnRejected(e1) == OnRejected(e2)
  {
  }

  /** `service` resolves with the body where `fileService` resolves with the
      whole response. */
  lemma UnwrapDiffersFromFileService(res: Axios.Response)
    ensures OnFulfilled(res) == KnowHubApi.OnFulfilled(res).data
  {
  }
}
