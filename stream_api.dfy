/**
 * The streaming chat calls (`src/api/StreamApi.ts`): both open a
 * server-sent-events stream with the JSON and bearer headers, and both judge
 * the handshake response the same way: go on, or throw `FatalError` or
 * `RetriableError`. A 401 first clears the session.
 */
module StreamApi {
  import opened Wrappers
  import Js
  import Auth
  import Web
  import FormUrlEncoded
  import opened Browser

  /** `getAuthHeaders()`: a fresh record with the JSON content type, to which
      the bearer header is added when the stored token is truthy. */
  method GetAuthHeaders(w: Window) returns (headers: map<string, string>)
    ensures Auth.IsJsonAuthHeaders(headers, w.GetItem(TokenKey))
  {
    var token := w.GetItem(TokenKey);
    headers := map[Auth.ContentTypeHeader := Auth.JsonContentType];
    if Auth.HasToken(token) {
      headers := headers[Auth.AuthorizationHeader := Auth.Bearer(token.value)];
    }
  }

  /** `handle401Error()`: remove the token, the role and the user id, show
      the expiry message, go to `/login`. */
  method Handle401Error(w: Window)
    modifies w
    ensures w.localStorage == ClearSession(old(w.localStorage))
    ensures w.effects == old(w.effects) + ExpiryEffects
  {
    w.RemoveItem(TokenKey);
    w.RemoveItem(RoleKey);
    w.RemoveItem(UserIdKey);
    w.ShowMessage(Error, SessionExpiredText);
    w.Navigate(LoginPath);
  }

  /** How `onopen` judges a handshake: go on, or which of its two errors to
      throw. The names say what each error is meant for; what the stream
      library then does with a thrown error is not part of this model. */
  datatype Handshake = Proceed | Fatal(clearsSession: bool) | Retriable

  /** The branch chain of `onopen`. */
  function Classify(status: int): (h: Handshake)
    ensures h == Proceed <==> Web.Ok(status)
    ensures h == Fatal(true) <==> status == 401
    ensures h == Fatal(false) <==> 400 <= status < 500 && status != 401 && status != 429
    ensures h == Retriable <==> !Web.Ok(status) && !(400 <= status < 500 && status != 429)
  {
    if Web.Ok(status) then Proceed
    else if status == 401 then Fatal(true)
    else if 400 <= status < 500 && status != 429 then Fatal(false)
    else Retriable
  }

  /** The two errors `onopen` throws. */
  datatype StreamError = FatalError | RetriableError

  /** The `onopen` callback shared by `postStreamChat` and `getStreamChat`:
      returns normally on an ok status, runs the recovery on 401 and then
      throws `FatalError`, throws `FatalError` on any other 4xx but 429, and
      `RetriableError` on everything else. Only 401 touches the page. */
  method OnOpen(w: Window, response: Web.Response) returns (thrown: Option<StreamError>)
    modifies w
    ensures thrown == None <==> Classify(response.status) == Proceed
    ensures thrown == Some(FatalError) <==> Classify(response.status).Fatal?
    ensures thrown == Some(RetriableError) <==> Classify(response.status) == Retriable
    ensures response.status == 401 ==> w.localStorage == ClearSession(old(w.localStorage))
    ensures response.status == 401 ==> w.effects == old(w.effects) + ExpiryEffects
    ensures response.status != 401 ==> w.localStorage == old(w.localStorage) && w.effects == old(w.effects)
  {
    if Web.Ok(response.status) {
      return None;
    } else if response.status == 401 {
      Handle401Error(w);
      thrown := Some(FatalError);
    } else if 400 <= response.status < 500 && response.status != 429 {
      thrown := Some(FatalError);
    } else {
      thrown := Some(RetriableError);
    }
  }

  /** Some statuses and the bucket the branch chain puts each in. */
  lemma ClassifyExamples()
    ensures Classify(200) == Proceed && Classify(299) == Proceed
    ensures Classify(401) == Fatal(true)
    ensures Classify(400) == Fatal(false) && Classify(403) == Fatal(false) && Classify(404) == Fatal(false)
    ensures Classify(429) == Retriable && Classify(500) == Retriable && Classify(503) == Retriable
    ensures Classify(304) == Retriable && Classify(0) == Retriable
  {
  }

  /** `postStreamChat(author, ...)`: POST to `/post-chat` with `{author}` as
      the JSON body. */
  method PostStreamChat(w: Window, baseUrl: string, author: string) returns (req: Web.Request)
    ensures req.url == baseUrl + "/post-chat"
    ensures req.verb == Web.POST
    ensures Auth.IsJsonAuthHeaders(req.headers, w.GetItem(TokenKey))
    ensures req.body == Some(Web.Json(Js.Object(map["author" := Js.Str(author)])))
  {
    var headers := GetAuthHeaders(w);
    req := Web.Request(baseUrl + "/post-chat", Web.POST, headers,
                       Some(Web.Json(Js.Object(map["author" := Js.Str(author)]))));
  }

  const ChatStreamPath: string := "/chat/stream?"

  /** `getStreamChat(message, ...)`: GET with the message pasted into the
      query string as it is, and no body. */
  method GetStreamChat(w: Window, baseUrl: string, message: string) returns (req: Web.Request)
    ensures req.url == baseUrl + ChatStreamPath + "message=" + message
    ensures req.verb == Web.GET
    ensures Auth.IsJsonAuthHeaders(req.headers, w.GetItem(TokenKey))
    ensures req.body == None
  {
    var headers := GetAuthHeaders(w);
    req := Web.Request(baseUrl + "/chat/stream?message=" + message, Web.GET, headers, None);
  }

  /** The message a server reads from the query string of a stream URL
      (the part after `?`; `url` has no fragment in the cases used here). */
  function ServerMessages(baseUrl: string, url: string): seq<(string, string)>
    requires |url| >= |baseUrl + ChatStreamPath|
  {
    FormUrlEncoded.Parse(url[|baseUrl + ChatStreamPath|..])
  }

  /** As written, a message with `&`, `=` or `+` does not reach the server
      intact: "a&b=c" arrives as the message "a" plus a stray parameter `b`,
      and "1+1" arrives as "1 1". */
  lemma UnencodedMessageIsMangled(baseUrl: string)
    ensures ServerMessages(baseUrl, baseUrl + ChatStreamPath + "message=" + "a&b=c")
         == [("message", "a"), ("b", "c")]
    ensures ServerMessages(baseUrl, baseUrl + ChatStreamPath + "message=" + "1+1")
         == [("message", "1 1")]
  {
    var prefix := baseUrl + ChatStreamPath;
    assert (prefix + "message=" + "a&b=c")[|prefix|..] == "message=a&b=c";
    assert (prefix + "message=" + "1+1")[|prefix|..] == "message=1+1";
    QueryOfTwoPairs();
    QueryWithSpace();
    FormUrlEncoded.ParseSerialize([("message", "a"), ("b", "c")]);
    FormUrlEncoded.ParseSerialize([("message", "1 1")]);
  }

  lemma QueryOfTwoPairs()
    ensures FormUrlEncoded.Serialize([("message", "a"), ("b", "c")]) == "message=a&b=c"
  {
    FormUrlEncoded.SerializeTwoPairs(("message", "a"), ("b", "c"));
    MessageAQuery();
    BCQuery();
    JoinsMessageAndB();
  }

  lemma JoinsMessageAndB()
    ensures "message=a" + "&" + "b=c" == "message=a&b=c"
  {
  }

  lemma MessageAQuery()
    ensures FormUrlEncoded.Serialize([("message", "a")]) == "message=a"
  {
    FormUrlEncoded.SerializeUnspacedPair("message", "a");
    JoinsMessageA();
  }

  lemma JoinsMessageA()
    ensures "message" + "=" + "a" == "message=a"
  {
  }

  lemma BCQuery()
    ensures FormUrlEncoded.Serialize([("b", "c")]) == "b=c"
  {
    FormUrlEncoded.SerializeUnspacedPair("b", "c");
    JoinsBC();
  }

  lemma JoinsBC()
    ensures "b" + "=" + "c" == "b=c"
  {
  }

  lemma QueryWithSpace()
    ensures FormUrlEncoded.Serialize([("message", "1 1")]) == "message=1+1"
  {
    FormUrlEncoded.SerializeOneSpace("message", "1", "1");
    JoinsOneSpaceOne();
    JoinsMessageOnePlusOne();
  }

  lemma JoinsOneSpaceOne()
    ensures "1" + " " + "1" == "1 1"
  {
  }

  lemma JoinsMessageOnePlusOne()
    ensures "message" + "=" + ("1" + "+" + "1") == "message=1+1"
  {
  }

  /** The stream URL with the message serialized as the query string, as
      `URLSearchParams` would: every message reaches the server unchanged. */
  function EncodedChatStreamUrl(baseUrl: string, message: string): (url: string)
    ensures |url| >= |baseUrl + ChatStreamPath|
    ensures ServerMessages(baseUrl, url) == [("message", message)]
  {
    var query := FormUrlEncoded.Serialize([("message", message)]);
    FormUrlEncoded.ParseSerialize([("message", message)]);
    assert (baseUrl + ChatStreamPath + query)[|baseUrl + ChatStreamPath|..] == query;
    baseUrl + ChatStreamPath + query
  }
}
