# Client-side authentication policy of the RAG chat front end

This project models, in Dafny, the authentication policy of a Vue front end for
a retrieval-augmented chat service, and proves what that policy does. The policy
is copied, with small differences, across several files:

- the navigation guard (`router.beforeEach`) and the route table it reads;
- the construction of the `Content-Type` and `Authorization: Bearer <token>`
  headers: in the stream API, in the fetch-based `HttpClient` class, in the
  `fetchWithAuth` wrapper, and in the request interceptors of the two axios
  instances (`fileService` and `service`);
- the session-expiry recovery on a 401. It removes `token`, `userRole` and
  `userId` from `localStorage`, shows "登录已过期，请重新登录" and navigates to
  `/login`;
- the classification of the handshake status of the server-sent-events stream:
  proceed, or throw `FatalError` or `RetriableError`;
- request shaping. This covers the GET query string built with
  `URLSearchParams`, the POST/PUT body choice, the upload form, and the error
  message that `fetchWithAuthJSON` falls back to.

`localStorage` is a `map<string, string>`. The user-visible effects
(`ElMessage`, `router.push`) are appended to a log. Both live in a
`Browser.Window` object that the imperative operations modify. The network is an
input: each call returns the request it would send, or takes as a parameter the
response (or the rejection) that the `fetch` call settles with.

The GET query string is proved correct against the
`application/x-www-form-urlencoded` serializer of the WHATWG URL Standard
(section 5.2, which encodes names and values as UTF-8 and then percent-encodes
them). Its partner is the parser of section 5.1, and the proof is a round trip:
parsing a serialized list gives the list back.

Modules, one per file: `Wrappers`, `Js` (JavaScript values, truthiness,
`String()`), `Utf8`, `FormUrlEncoded` (with the `URLSearchParams` class),
`Browser`, `Web` (Fetch values, `FormData`), `Axios`, `Auth`, `RouteTable`,
`RouteGuard`, `StreamApi`, `FetchWrapper`, `HttpClient`, `KnowHubApi`,
`HttpService`.

Some consequences of the code that are easy to miss:

- The `service` instance tests `token !== null`, so for an empty stored token
  it sends the bare `Bearer ` header, where every other copy sends no
  `Authorization` header (`Auth.AttachRulesDifferOnlyOnEmptyToken`).
- The guard refuses every stored role on a route whose `roles` list is empty,
  because an empty array is truthy (`RouteGuard.EmptyRolesRefuseEveryRole`).
  It lets through a user with no stored role, or an empty one, on a route that
  lists roles (`RouteGuard.MissingRoleIsLetThrough`).
- The `service` instance rejects every error with `""` and runs no recovery on
  a 401 (`HttpService.OnRejected`). No code checks an application-level `code`
  field of a response body (`FetchWrapper.FetchWithAuthJSON`).
- Each 401 runs its own recovery, which appends its own message and its own
  navigation to `/login`. Only the storage side is idempotent
  (`Browser.ClearSessionIdempotent`).

## Model

| member | source | states |
|---|---|---|
| RouteTable.Lookup | src/router/index.ts:18 | the route found has the requested path, and when none is found no route has it |
| RouteTable.MetaFor | src/router/index.ts:28 | a path that matches no route carries neither `requiresAuth` nor `roles`, so the guard lets it through |
| RouteTable.IndexRoute | src/router/config.ts:2-10 | `/` is named `index`, redirects to `/ragChat`, requires login and is not a menu item |
| RouteTable.LoginRoute | src/router/config.ts:11-19 | `/login` is found under its path, is named `login` and has `requiresAuth: false` |
| RouteTable.OnlyLoginIsPublic | src/router/config.ts:1-125 | every route states `requiresAuth`, and it is false exactly for `/login` |
| RouteTable.AdminRoutes | src/router/config.ts:66-124 | exactly `/user`, `/logInfo`, `/sensitive`, `/senCategory` and `/frequency` list roles, and each lists only `admin` |
| RouteTable.RolesRequireAuth | src/router/config.ts:73-74 | every route that lists roles also requires login |
| RouteTable.DistinctPathsAndNames | src/router/config.ts:1-125 | route paths are pairwise distinct, and so are route names |
| RouteTable.MenuEntries | src/router/config.ts:7-16 | `isMenu` is false for exactly `/` and `/login` |
| RouteGuard.BeforeEach | src/router/index.ts:18-45 | the guard only ever redirects to `/`, to `login` or to `index`; only the login page is sent to `/`; a navigation let through shows no message |
| RouteGuard.LoginPageWithTokenGoesHome | src/router/index.ts:23-26 | going to `/login` with a truthy token redirects to `/` with no message, whatever the route's meta |
| RouteGuard.ProtectedWithoutToken | src/router/index.ts:28-32 | a protected page without a token shows the warning "请先登录" and redirects to the route named `login` |
| RouteGuard.WrongRoleGoesToIndex | src/router/index.ts:33-36 | a protected page whose roles omit the stored non-empty role shows "您没有权限访问该页面" and redirects to `index` |
| RouteGuard.MissingRoleIsLetThrough | src/router/index.ts:33-39 | with a token but no stored role (or an empty one), a page that lists roles is let through |
| RouteGuard.EmptyRolesRefuseEveryRole | src/router/index.ts:33-36 | an empty `roles` list refuses every stored non-empty role |
| RouteGuard.PublicPageProceeds | src/router/index.ts:41-44 | a page without `requiresAuth` is let through, except the login page for a logged-in user |
| RouteGuard.ProceedsExactlyWhen | src/router/index.ts:18-45 | both directions: the guard proceeds exactly when it is not the login page with a token and, on a protected page, there is a token and the role is not refused |
| RouteGuard.NoticeExactlyOnNamedRedirect | src/router/index.ts:28-40 | a message is shown exactly when the guard redirects by route name |
| RouteGuard.LookupFindsEachRoute | src/router/index.ts:28 | in a table with distinct paths, every route is found under its own path |
| RouteGuard.MetaOfEachRoute | src/router/index.ts:28 | navigating to a route's path carries that route's meta |
| RouteGuard.EveryPageButLoginNeedsToken | src/router/index.ts:28-32 | without a token, every route but `/login` redirects to `login` |
| RouteGuard.AdminPagesAdmitOnlyAdmin | src/router/index.ts:33-39 | on a route that lists roles, a logged-in user with a stored role gets in exactly when the role is `admin`, and is otherwise sent to `index` |
| RouteGuard.AdminGate | src/router/index.ts:33-39 | on a protected page restricted to `admin`, a logged-in user with a stored role proceeds exactly when the role is `admin`, and is otherwise sent to `index` |
| RouteGuard.DrawWithoutToken | src/router/config.ts:33-41 | without a token, `/draw` redirects to `login` |
| RouteGuard.UserPageByRole | src/router/config.ts:65-75 | with a token, `/user` redirects role `user` to `index` and lets role `admin` through |
| RouteGuard.NamedTargets | src/router/config.ts:3-13 | the route named `index` is `/` and the route named `login` is `/login` |
| RouteGuard.RedirectTargetIsAdmitted | src/router/index.ts:23-36 | a redirect never bounces: guarding its target with the same storage lets the navigation through |
| RouteGuard.LoginAdmittedAfterRecovery | src/api/StreamApi.ts:28-39 | once the recovery has cleared the session, its navigation to `/login` is let through |
| Auth.Bearer | src/api/StreamApi.ts:21 | the header value is `Bearer ` followed by the token itself |
| Auth.AttachIfTruthy | src/api/KnowHubApi.ts:19-26 | with a truthy token, `Authorization` is `Bearer <token>`; without one the headers are unchanged; no other header is added, dropped or changed |
| Auth.AttachIfNotNull | src/http/index.ts:14-19 | with any stored token, the empty one included, `Authorization` is `Bearer <token>`; otherwise the headers are unchanged; no other header changes |
| Auth.AttachRulesDifferOnlyOnEmptyToken | src/http/index.ts:16 | the `!== null` and truthy rules agree on every stored value except `""`, for which one sends `Bearer ` and the other adds nothing |
| Js.TruthyItem | src/api/StreamApi.ts:20 | a value read from storage is truthy exactly when it is present and non-empty |
| Browser.ClearSession | src/api/StreamApi.ts:30-32 | no session key is left, and every other storage entry is kept as it was |
| Browser.ClearSessionIdempotent | src/api/StreamApi.ts:28-39 | clearing twice leaves the same storage as clearing once |
| Browser.ClearSessionForgets | src/api/StreamApi.ts:30-32 | after clearing, `getItem` answers `null` for `token`, `userRole` and `userId` |
| StreamApi.GetAuthHeaders | src/api/StreamApi.ts:14-25 | the headers are exactly `Content-Type: application/json`, plus `Authorization: Bearer <token>` exactly when the stored token is truthy |
| StreamApi.Handle401Error | src/api/StreamApi.ts:28-39 | storage loses exactly the three session keys; the expiry message and then a navigation to `/login` are appended to the effects |
| StreamApi.Classify | src/api/StreamApi.ts:63-78 | each bucket, both directions: proceed exactly on 200-299; `FatalError` after the recovery exactly on 401; `FatalError` without recovery exactly on the other 4xx except 429; `RetriableError` on everything else |
| StreamApi.OnOpen | src/api/StreamApi.ts:102-117 | it returns or throws as `Classify` says; a 401 runs the recovery; every other status leaves storage and effects alone |
| StreamApi.ClassifyExamples | src/api/StreamApi.ts:69-77 | 400, 403 and 404 give `FatalError`; 429, 5xx, 304 and 0 give `RetriableError`; 401 gives `FatalError` after the recovery |
| StreamApi.PostStreamChat | src/api/StreamApi.ts:49-55 | a POST to `/post-chat` with the JSON and bearer headers and `{author}` as its body |
| StreamApi.GetStreamChat | src/api/StreamApi.ts:90-93 | a GET of `/chat/stream?message=` followed by the raw message, with the same headers and no body |
| StreamApi.UnencodedMessageIsMangled | src/api/StreamApi.ts:90 | the server reads "a&b=c" as message "a" plus a stray parameter `b`, and reads "1+1" as "1 1" |
| StreamApi.EncodedChatStreamUrl | src/api/StreamApi.ts:90 | with the message form-encoded, the server reads back exactly one parameter, `message`, equal to the message |
| FetchWrapper.Handle401Error | src/utils/fetchWrapper.ts:5-16 | storage loses exactly the three session keys; the expiry message and a navigation to `/login` are appended |
| FetchWrapper.AddAuthHeader | src/utils/fetchWrapper.ts:21-28 | with a truthy token, missing headers become exactly `{Authorization}`, and existing headers get `Authorization` set (overwritten) with the others kept, in the caller's own object; without a token nothing changes |
| FetchWrapper.FetchWithAuth | src/utils/fetchWrapper.ts:20-44 | the caller's `options.headers` end up as `AddAuthHeader` leaves them, whatever the response; a 401 runs the recovery and fails with `Error('Unauthorized')`; any other response is returned unchanged; a rejected fetch is rethrown unchanged; neither of those touches storage or effects |
| FetchWrapper.StatusMessage | src/utils/fetchWrapper.ts:52 | the fallback message starts with `HTTP ` |
| FetchWrapper.StatusMessageNamesStatus | src/utils/fetchWrapper.ts:52 | the fallback message is `HTTP <digits>: <statusText>`, where the digits read back as the status |
| FetchWrapper.ErrorFor | src/utils/fetchWrapper.ts:50-53 | the result is an `Error`, or a `TypeError` exactly when the body is `null` (or `undefined`); a truthy body `message` wins; every other body, unparsable, `{}`, `{message: ""}`, an array or a string, gives the status message |
| FetchWrapper.FetchWithAuthJSON | src/utils/fetchWrapper.ts:47-56 | it fails as `fetchWithAuth` does, with the same storage, effects and headers; any other non-ok status fails with `ErrorFor`; an ok response yields its parsed body with no check of an application `code`, or a `SyntaxError` when it is not JSON; only a 401 touches storage or effects |
| FetchWrapper.UnparsableBodyExample | src/utils/fetchWrapper.ts:51-52 | a 500 with a non-JSON body fails with `HTTP 500: ` followed by its status text |
| FetchWrapper.ServerMessageExample | src/utils/fetchWrapper.ts:52 | a body `{message: "no such file"}` fails with that message |
| FetchWrapper.EmptyMessageExample | src/utils/fetchWrapper.ts:52 | an empty body `message` on a 400 falls back to `HTTP 400: ` followed by the status text |
| FetchWrapper.NullBodyThrowsTypeError | src/utils/fetchWrapper.ts:51-52 | as written, a JSON `null` error body throws a `TypeError`, where the intended fallback gives the status message |
| FetchWrapper.IntendedErrorFor | src/utils/fetchWrapper.ts:51-52 | the intended fallback always fails with an `Error`: the status message where the code throws a `TypeError`, and the code's error everywhere else |
| FormUrlEncoded.ParseSerialize | src/utils/httpClient.ts:26-30 | parsing the serialized query string gives back the appended pairs, in order |
| FormUrlEncoded.SerializeInjective | src/utils/httpClient.ts:26-30 | two different parameter lists never produce the same query string |
| FormUrlEncoded.SerializePlainPair | src/utils/httpClient.ts:30 | a pair of names and values made of unreserved ASCII characters and spaces is written as `name=value`, each space as `+`, nothing percent-encoded |
| FormUrlEncoded.SearchParams.Append | src/utils/httpClient.ts:28 | the pair is added at the end, and nothing already in the list is replaced |
| Utf8.DecodeEncode | src/utils/httpClient.ts:30 | decoding the UTF-8 encoding of a string gives the string back |
| HttpClient.RequestUrl | src/utils/httpClient.ts:23-31 | without params the URL is `baseURL + url`; with params it is followed by `?`, and parsing the rest gives back the params in entry order |
| HttpClient.HttpClient.constructor | src/utils/httpClient.ts:3-7 | `baseURL` is the given one, and as a `const` it never changes |
| HttpClient.HttpClient.GetAuthHeaders | src/utils/httpClient.ts:9-20 | exactly `Content-Type: application/json`, plus `Authorization: Bearer <token>` exactly when the token is truthy |
| HttpClient.HttpClient.Get | src/utils/httpClient.ts:22-37 | the entries are appended to a fresh `URLSearchParams` one by one, in order, and the result is requested with GET, the auth headers and no body |
| HttpClient.EmptyParamsLeaveBareQuestionMark | src/utils/httpClient.ts:25-30 | an empty params object still leaves a bare `?` |
| HttpClient.PageAndSizeExample | src/utils/httpClient.ts:25-30 | `{page: "1", size: "10"}` gives `?page=1&size=10` |
| HttpClient.RequestBody | src/utils/httpClient.ts:43 | a body exactly when the payload is truthy, and then its JSON |
| HttpClient.HttpClient.Post | src/utils/httpClient.ts:39-45 | POST to `baseURL + url` with the auth headers and the body that `RequestBody` chooses |
| HttpClient.HttpClient.Put | src/utils/httpClient.ts:47-53 | PUT to `baseURL + url` with the auth headers and the body that `RequestBody` chooses |
| HttpClient.HttpClient.Delete | src/utils/httpClient.ts:55-60 | DELETE of `baseURL + url` with the auth headers and no body |
| HttpClient.FalsyPayloadsSendNoBody | src/utils/httpClient.ts:43 | `undefined`, `null`, `false`, `0` and `""` send no body; `{}` and `[]` are sent |
| KnowHubApi.FileService | src/api/KnowHubApi.ts:11-16 | the instance's only default header is `Content-Type: multipart/form-data` |
| KnowHubApi.RequestInterceptor | src/api/KnowHubApi.ts:19-30 | the same config comes back, with `Authorization` set exactly when the token is truthy and nothing else changed |
| KnowHubApi.OnFulfilled | src/api/KnowHubApi.ts:34-36 | the whole response passes through, with its status and not just its data |
| KnowHubApi.OnRejected | src/api/KnowHubApi.ts:37-56 | a 401 clears the three keys, notifies and navigates to `/login`; any other error, or one with no response, changes nothing; the error is rejected unchanged |
| KnowHubApi.FileEntries | src/api/KnowHubApi.ts:61-64 | one entry per file, each under key `file`, in list order |
| KnowHubApi.UploadFileApi | src/api/KnowHubApi.ts:60-67 | a fresh `FormData` filled file by file is posted through `fileService` to the upload endpoint |
| HttpService.Service | src/http/index.ts:4-9 | the instance carries the given base URL and default headers |
| HttpService.RequestInterceptor | src/http/index.ts:13-20 | the same config comes back, with `Authorization` set whenever a token is stored, even an empty one, and nothing else changed |
| HttpService.OnFulfilled | src/http/index.ts:31-33 | the caller receives `res.data`, the unwrapped body |
| HttpService.OnRejected | src/http/index.ts:34-38 | every error rejects with the empty string |
| HttpService.RejectionIgnoresError | src/http/index.ts:34-38 | two different errors, a 401 among them, reject with the same value |
| HttpService.UnwrapDiffersFromFileService | src/http/index.ts:31-33 | `service` resolves with the body, where `fileService` resolves with the whole response |

## Left out

- `BASE_URL` and `HEADER` (`src/http/config`) and the `KnowApi` endpoint paths (`src/api/common`) are not part of this model. They appear as parameters (`baseURL`, `header`, `uploadPath`).
- The network, `fetch`, `fetchEventSource` and axios itself are inputs. A call returns the request it would send, or takes the settled response or rejection as a parameter. Timing, retries, reconnection and the `AbortController` are not modelled.
- `JSON.stringify` and `response.json()` stay symbolic. A JSON body is the JavaScript value it serializes, and a parsed body is a value or "not JSON".
- `ElMessage` and `router.push` are entries in an effect log. vue-router's own matching (case, trailing slashes, redirect chaining) is replaced by exact lookup of a path in the route table.
- `console.log` and `console.error` calls are not modelled.
- Concurrent requests are not modelled. Each 401 runs its own recovery, so nothing bounds how often concurrent failures navigate to `/login`.
- The `component`, `description` and `icon` fields of routes are not modelled. The guard never reads them.
- `queryFileApi`, `deleteFileApi` and `downloadFileApi` only pass a path and params to the `service` instance, whose interceptors are modelled.
- The request interceptors' error handlers only reject the error again. They are not modelled separately.
- Js: numbers are integers; NaN, fractions and `-0` are not modelled, and `String()` of objects is `[object Object]`. `Js.NumberToString` always writes plain decimal digits, while JavaScript's `String(n)` switches to exponent form from 1e21 on.
- Utf8: lone surrogate code points are outside Dafny's `char`. The decoder's error handling replaces one byte per malformed sequence. Only the round trip on valid strings is stated.
- HttpClient.HttpClient.Get: `Object.entries` puts integer-like keys first. The model takes the params as the list of entries in the order `Object.entries` yields them.
- StreamApi.OnOpen: the model states only which error `onopen` throws. `fetchEventSource` hands a thrown error to the `onerror` option, and at src/api/StreamApi.ts:57-59 and 96-98 that option calls `onError` and returns nothing, which the library documents as "retry". So `FatalError` does not stop the stream, a 401 is retried with the headers computed once before the first attempt (the old token), and each retry runs the recovery again. `fetchEventSource` is not part of this model.
- FetchWrapper.AddAuthHeader: `options.headers` is modelled as a plain record of headers only. A caller may pass a `Headers` object or an array of pairs instead; the property write at src/utils/fetchWrapper.ts:27 then adds no real header, so no `Authorization` is sent and nothing reports it. The model does not capture that case.
- Header names are compared exactly. The case-insensitivity of HTTP header names is not modelled.

## Findings

| source | as written | input that shows it | evidently intended | confidence | as-written member | corrected member |
|---|---|---|---|---|---|---|
| src/api/StreamApi.ts:90 | the message is pasted into the query string unencoded | the message "a&b=c" arrives as "a" with a stray parameter `b=c`; "1+1" arrives as "1 1" | the message reaches the server intact, as `URLSearchParams` would encode it | medium, not executed | StreamApi.UnencodedMessageIsMangled | StreamApi.EncodedChatStreamUrl |
| src/utils/fetchWrapper.ts:51-52 | `errorData.message` is read even when the error body parsed to `null` | a 500 whose body is the JSON `null` | fall back to `HTTP 500: Internal Server Error`, as for an unparsable body | medium, not executed | FetchWrapper.NullBodyThrowsTypeError | FetchWrapper.IntendedErrorFor |
