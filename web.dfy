/**
 * The Fetch API values the client code builds and receives (Fetch Standard),
 * and the `FormData` object it fills for uploads.
 */
module Web {
  import opened Wrappers
  import Js
  import Utf8

  /** A response's "ok" flag: the status is in the range 200 to 299. */
  predicate Ok(status: int) {
    200 <= status <= 299
  }

  /** A response as the client sees it; `body` is what `response.json()`
      resolves to, or `None` when the body is not JSON and it rejects. */
  datatype Response = Response(status: int, statusText: string, body: Option<Js.JsValue>)

  /** How the `fetch(...)` promise settles: with a response, or rejected
      (no response at all: the network failed, the request was refused). */
  datatype Outcome = Delivered(response: Response) | Rejected(error: Js.Exception)

  datatype File = File(name: string, content: seq<Utf8.byte>)

  /** A request body: `JSON.stringify(data)` kept as the value it serializes,
      or the entries of a `FormData`. */
  datatype Body = Json(data: Js.JsValue) | Form(entries: seq<(string, File)>)

  /** An HTTP method. */
  datatype Verb = GET | POST | PUT | DELETE

  /** The arguments handed to `fetch(url, init)`. */
  datatype Request = Request(url: string, verb: Verb, headers: map<string, string>, body: Option<Body>)

  /** A `FormData` object: an ordered list of entries, appended to in place. */
  class FormData {
    var entries: seq<(string, File)>

    constructor ()
      ensures entries == []
    {
      entries := [];
    }

    method Append(name: string, value: File)
      modifies this
      ensures entries == old(entries) + [(name, value)]
    {
      entries := entries + [(name, value)];
    }
  }
}
