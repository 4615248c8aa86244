/**
 * The parts of an axios instance the interceptors see: the request config
 * they edit in place, the response they pass on and the error they reject.
 */
module Axios {
  import opened Wrappers
  import Js
  import Web

  /** What `axios.create({...})` fixes for every request of an instance. */
  datatype Instance = Instance(baseURL: string, headers: map<string, string>)

  /** A request config; interceptors change its `headers` in place. */
  class RequestConfig {
    var url: string
    var verb: Web.Verb
    var headers: map<string, string>
    var data: Option<Web.Body>

    constructor (url: string, verb: Web.Verb, headers: map<string, string>, data: Option<Web.Body>)
      ensures this.url == url && this.verb == verb && this.headers == headers && this.data == data
    {
      this.url := url;
      this.verb := verb;
      this.headers := headers;
      this.data := data;
    }
  }

  /** A call such as `instance.post(url, data)`: the instance it goes
      through, the verb, the path below the base URL and the payload. */
  datatype Call = Call(instance: Instance, verb: Web.Verb, url: string, data: Option<Web.Body>)

  /** A settled response; `data` is the parsed body. */
  datatype Response = Response(status: int, data: Js.JsValue)

  /** A rejected request; `response` is absent when none arrived. */
  datatype Error = Error(message: string, response: Option<Response>)

  /** `error.response?.status`. */
  function StatusOf(e: Error): (r: Option<int>)
    ensures r.Some? <==> e.response.Some?
    ensures r.Some? ==> r.value == e.response.value.status
  {
    match e.response
    case None => None
    case Some(res) => Some(res.status)
  }
}
