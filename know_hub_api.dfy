/**
 * The knowledge-base upload client (`src/api/KnowHubApi.ts`): its own axios
 * instance `fileService`, whose request interceptor adds the bearer header
 * when the token is truthy and whose response interceptor runs the
 * session-expiry recovery on a 401 before rejecting the error again.
 */
module KnowHubApi {
  import opened Wrappers
  import Auth
  import Web
  import Axios
  import opened Browser

  const MultipartFormData: string := "multipart/form-data"

  /** `fileService`: the base URL and `Content-Type: multipart/form-data` as
      its only default header. */
  function FileService(baseURL: string): (i: Axios.Instance)
    ensures i.baseURL == baseURL
    ensures i.headers.Keys == {Auth.ContentTypeHeader}
    ensures i.headers[Auth.ContentTypeHeader] == MultipartFormData
  {
    Axios.Instance(baseURL, map[Auth.ContentTypeHeader := MultipartFormData])
  }

  /** The request interceptor: with a truthy token, `Authorization` is set on
      the config's headers; the config itself is handed on, and nothing but
      its headers changes. */
  method RequestInterceptor(w: Window, config: Axios.RequestConfig) returns (handed: Axios.RequestConfig)
    modifies config
    ensures handed == config
    ensures config.headers == Auth.AttachIfTruthy(old(config.headers), w.GetItem(TokenKey))
    ensures config.url == old(config.url) && config.verb == old(config.verb) && config.data == old(config.data)
  {
    var token := w.GetItem(TokenKey);
    if Auth.HasToken(token) {
      config.headers := config.headers[Auth.AuthorizationHeader := Auth.Bearer(token.value)];
    }
    handed := config;
  }

  /** The success handler of the response interceptor: the whole response,
      not its `data`. */
  function OnFulfilled(response: Axios.Response): (r: Axios.Response)
    ensures r.status == response.status && r.data == response.data
  {
    response
  }

  /** The error handler of the response interceptor: on `error.response?.status
      === 401` the three session keys go, the expiry message is shown and the
      page goes to `/login`; any other error, one without a response
      included, leaves the page alone. The error is rejected again as it is. */
  method OnRejected(w: Window, error: Axios.Error) returns (rejected: Axios.Error)
    modifies w
    ensures rejected == error
    ensures Axios.StatusOf(error) == Some(401) ==>
      w.localStorage == ClearSession(old(w.localStorage)) && w.effects == old(w.effects) + ExpiryEffects
    ensures Axios.StatusOf(error) != Some(401) ==>
      w.localStorage == old(w.localStorage) && w.effects == old(w.effects)
  {
    var status := Axios.StatusOf(error);
    if status == Some(401) {
      w.RemoveItem(TokenKey);
      w.RemoveItem(RoleKey);
      w.RemoveItem(UserIdKey);
      w.ShowMessage(Error, SessionExpiredText);
      w.Navigate(LoginPath);
    }
    rejected := error;
  }

  const FileField: string := "file"

  /** The form entries of an upload: every file under `file`, in list order. */
  function FileEntries(files: seq<Web.File>): (entries: seq<(string, Web.File)>)
    ensures |entries| == |files|
    ensures forall k :: 0 <= k < |files| ==> entries[k] == (FileField, files[k])
  {
    if files == [] then [] else [(FileField, files[0])] + FileEntries(files[1..])
  }

  /** `uploadFileApi(filesList)`: a fresh `FormData` with each file appended
      under `file`, posted through `fileService` to the upload endpoint
      (`uploadPath`, whose value lives outside this model). */
  method UploadFileApi(baseURL: string, uploadPath: string, files: seq<Web.File>) returns (call: Axios.Call)
    ensures call.instance == FileService(baseURL)
    ensures call.verb == Web.POST && call.url == uploadPath
    ensures call.data == Some(Web.Form(FileEntries(files)))
  {
    var formData := new Web.FormData();
    var i := 0;
    while i < |files|
      invariant 0 <= i <= |files|
      invariant formData.entries == FileEntries(files[..i])
    {
      formData.Append(FileField, files[i]);
      FileEntriesAppend(files[..i], files[i]);
      assert files[..i + 1] == files[..i] + [files[i]];
      i := i + 1;
    }
    assert files[..i] == files;
    call := Axios.Call(FileService(baseURL), Web.POST, uploadPath, Some(Web.Form(formData.entries)));
  }

  /** Uploading one more file adds exactly one entry, at the end. */
  lemma {:induction false} FileEntriesAppend(files: seq<Web.File>, f: Web.File)
    ensures FileEntries(files + [f]) == FileEntries(files) + [(FileField, f)]
  {
    if files != [] {
      assert (files + [f])[1..] == files[1..] + [f];
      FileEntriesAppend(files[1..], f);
    }
  }
}
