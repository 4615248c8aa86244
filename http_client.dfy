/**
 * The fetch-based HTTP client class (`src/utils/httpClient.ts`): a fixed base
 * URL, the JSON and bearer headers on every call, a query string built with
 * `URLSearchParams` for GET, and a JSON body for POST and PUT only when the
 * payload is truthy.
 */
module HttpClient {
  import opened Wrappers
  import Js
  import Auth
  import Web
  import FormUrlEncoded
  import opened Browser

  /** The URL `get(url, params)` requests: `baseURL + url`, followed by `?`
      and the serialized parameters whenever a params object is given, even
      an empty one. A server parsing the query reads the parameters back. */
  function RequestUrl(baseURL: string, url: string, params: Option<seq<(string, string)>>): (r: string)
    ensures params.None? ==> r == baseURL + url
    ensures params.Some? ==> |r| > |baseURL + url| && r[..|baseURL + url| + 1] == baseURL + url + "?"
    ensures params.Some? ==> FormUrlEncoded.Parse(r[|baseURL + url| + 1..]) == params.value
  {
    if params.None? then baseURL + url
    else
      var query := FormUrlEncoded.Serialize(params.value);
      FormUrlEncoded.ParseSerialize(params.value);
      assert (baseURL + url + "?" + query)[|baseURL + url| + 1..] == query;
      baseURL + url + "?" + query
  }

  /** `data ? JSON.stringify(data) : undefined`: a body exactly when the
      payload is truthy, and then the payload itself. */
  function RequestBody(data: Js.JsValue): (b: Option<Web.Body>)
    ensures b.Some? <==> Js.Truthy(data)
    ensures b.Some? ==> b.value == Web.Json(data)
  {
    if Js.Truthy(data) then Some(Web.Json(data)) else None
  }

  class HttpClient {
    /** Set once by the constructor, never changed. */
    const baseURL: string

    constructor (baseURL: string)
      ensures this.baseURL == baseURL
    {
      this.baseURL := baseURL;
    }

    /** `getAuthHeaders()`: the JSON content type, plus the bearer header when
        the stored token is truthy, and nothing else. */
    method GetAuthHeaders(w: Window) returns (headers: map<string, string>)
      ensures Auth.IsJsonAuthHeaders(headers, w.GetItem(TokenKey))
    {
      var token := w.GetItem(TokenKey);
      headers := map[Auth.ContentTypeHeader := Auth.JsonContentType];
      if Auth.HasToken(token) {
        headers := headers[Auth.AuthorizationHeader := Auth.Bearer(token.value)];
      }
    }

    /** `get(url, params)`: the entries of `params` are appended one by one,
        in order, to a fresh `URLSearchParams`, whose serialization follows a
        `?`. No body is sent. */
    method Get(w: Window, url: string, params: Option<seq<(string, string)>>) returns (req: Web.Request)
      ensures req.url == RequestUrl(baseURL, url, params)
      ensures req.verb == Web.GET && req.body == None
      ensures Auth.IsJsonAuthHeaders(req.headers, w.GetItem(TokenKey))
    {
      var fullUrl := baseURL + url;
      if params.Some? {
        var searchParams := new FormUrlEncoded.SearchParams();
        var entries := params.value;
        var i := 0;
        while i < |entries|
          invariant 0 <= i <= |entries|
          invariant searchParams.list == entries[..i]
        {
          searchParams.Append(entries[i].0, entries[i].1);
          i := i + 1;
        }
        assert entries[..i] == entries;
        fullUrl := fullUrl + "?" + searchParams.ToString();
      }
      var headers := GetAuthHeaders(w);
      req := Web.Request(fullUrl, Web.GET, headers, None);
    }

    /** `post(url, data)`. */
    method Post(w: Window, url: string, data: Js.JsValue) returns (req: Web.Request)
      ensures req.url == baseURL + url && req.verb == Web.POST
      ensures Auth.IsJsonAuthHeaders(req.headers, w.GetItem(TokenKey))
      ensures req.body == RequestBody(data)
    {
      var headers := GetAuthHeaders(w);
      req := Web.Request(baseURL + url, Web.POST, headers, RequestBody(data));
    }

    /** `put(url, data)`. */
    method Put(w: Window, url: string, data: Js.JsValue) returns (req: Web.Request)
      ensures req.url == baseURL + url && req.verb == Web.PUT
      ensures Auth.IsJsonAuthHeaders(req.headers, w.GetItem(TokenKey))
      ensures req.body == RequestBody(data)
    {
      var headers := GetAuthHeaders(w);
      req := Web.Request(baseURL + url, Web.PUT, headers, RequestBody(data));
    }

    /** `delete(url)`: no body. */
    method Delete(w: Window, url: string) returns (req: Web.Request)
      ensures req.url == baseURL + url && req.verb == Web.DELETE && req.body == None
      ensures Auth.IsJsonAuthHeaders(req.headers, w.GetItem(TokenKey))
    {
      var headers := GetAuthHeaders(w);
      req := Web.Request(baseURL + url, Web.DELETE, headers, None);
    }
  }

  /** The falsy payloads (`undefined`, `null`, `false`, `0`, `""`) send no
      body at all; an empty object or array is truthy and is sent. */
  lemma FalsyPayloadsSendNoBody()
    ensures RequestBody(Js.Undefined) == None && RequestBody(Js.Null) == None
    ensures RequestBody(Js.Bool(false)) == None && RequestBody(Js.Number(0)) == None
    ensures RequestBody(Js.Str("")) == None
    ensures RequestBody(Js.Object(map[])) == Some(Web.Json(Js.Object(map[])))
    ensures RequestBody(Js.Array([])) == Some(Web.Json(Js.Array([])))
  {
  }

  /** An empty params object still leaves a bare `?` on the URL. */
  lemma EmptyParamsLeaveBareQuestionMark(baseURL: string, url: string)
    ensures RequestUrl(baseURL, url, Some([])) == baseURL + url + "?"
  {
    assert FormUrlEncoded.SerializeBytes([]) == [];
  }

  /** `{page: "1", size: "10"}` gives `?page=1&size=10`. */
  lemma PageAndSizeExample(baseURL: string, url: string)
    ensures RequestUrl(baseURL, url, Some([("page", "1"), ("size", "10")])) == baseURL + url + "?" + "page=1&size=10"
  {
    var params := [("page", "1"), ("size", "10")];
    PageAndSizeQuery();
    UrlWithParams(baseURL, url, params);
  }

  lemma UrlWithParams(baseURL: string, url: string, params: seq<(string, string)>)
    ensures RequestUrl(baseURL, url, Some(params)) == baseURL + url + "?" + FormUrlEncoded.Serialize(params)
  {
  }

  lemma PageAndSizeQuery()
    ensures FormUrlEncoded.Serialize([("page", "1"), ("size", "10")]) == "page=1&size=10"
  {
    FormUrlEncoded.SerializeTwoPairs(("page", "1"), ("size", "10"));
    PageQuery();
    SizeQuery();
    JoinsPageAndSize();
  }

  lemma JoinsPageAndSize()
    ensures "page=1" + "&" + "size=10" == "page=1&size=10"
  {
  }

  lemma PageQuery()
    ensures FormUrlEncoded.Serialize([("page", "1")]) == "page=1"
  {
    FormUrlEncoded.SerializeUnspacedPair("page", "1");
    JoinsPage();
  }

  lemma JoinsPage()
    ensures "page" + "=" + "1" == "page=1"
  {
  }

  lemma SizeQuery()
    ensures FormUrlEncoded.Serialize([("size", "10")]) == "size=10"
  {
    FormUrlEncoded.SerializeUnspacedPair("size", "10");
    JoinsSize();
  }

  lemma JoinsSize()
    ensures "size" + "=" + "10" == "size=10"
  {
  }
}
