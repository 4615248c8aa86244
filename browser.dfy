/**
 * The browser state the client code touches: `localStorage`, a string map
 * that persists the session, and the user-visible effects it causes, kept as
 * a log: `ElMessage` notifications and `router.push` navigations.
 */
module Browser {
  import opened Wrappers

  type Storage = map<string, string>

  /** The `type` of an `ElMessage` notification. */
  datatype MessageType = Warning | Error

  datatype Effect =
    | Message(kind: MessageType, text: string)   // ElMessage(...) / ElMessage.error(...)
    | Push(path: string)                          // router.push(path)

  const TokenKey: string := "token"
  const RoleKey: string := "userRole"
  const UserIdKey: string := "userId"

  /** The three entries that make up a login session. */
  const SessionKeys: set<string> := {TokenKey, RoleKey, UserIdKey}

  const LoginPath: string := "/login"
  const SessionExpiredText: string := "登录已过期，请重新登录"

  /** What the session-expiry recovery shows and where it navigates, in order. */
  const ExpiryEffects: seq<Effect> := [Message(Error, SessionExpiredText), Push(LoginPath)]

  /** `localStorage.getItem(key)`. */
  function Get(s: Storage, key: string): (r: Option<string>)
    ensures r.Some? <==> key in s
    ensures r.Some? ==> r.value == s[key]
  {
    if key in s then Some(s[key]) else None
  }

  /** The storage once the session entries are removed: no session key is
      left and every other entry is kept as it was. */
  function ClearSession(s: Storage): (r: Storage)
    ensures r.Keys !! SessionKeys
    ensures forall k :: k !in SessionKeys ==> Get(r, k) == Get(s, k)
  {
    s - SessionKeys
  }

  /** Clearing an already cleared session changes nothing, so recovery can
      run any number of times. */
  lemma ClearSessionIdempotent(s: Storage)
    ensures ClearSession(ClearSession(s)) == ClearSession(s)
  {
  }

  /** After a clear, `getItem` answers `null` for the token, role and user id. */
  lemma ClearSessionForgets(s: Storage)
    ensures Get(ClearSession(s), TokenKey).None?
    ensures Get(ClearSession(s), RoleKey).None?
    ensures Get(ClearSession(s), UserIdKey).None?
  {
  }

  /** The page: its storage and the effects shown so far. */
  class Window {
    var localStorage: Storage
    var effects: seq<Effect>

    constructor (storage: Storage)
      ensures localStorage == storage && effects == []
    {
      localStorage := storage;
      effects := [];
    }

    /** `localStorage.getItem(key)`. */
    function GetItem(key: string): Option<string>
      reads this
    {
      Get(localStorage, key)
    }

    /** `localStorage.removeItem(key)`; removing a missing key is harmless. */
    method RemoveItem(key: string)
      modifies this
      ensures localStorage == old(localStorage) - {key}
      ensures effects == old(effects)
    {
      localStorage := localStorage - {key};
    }

    /** `ElMessage(...)`: the storage is untouched. */
    method ShowMessage(kind: MessageType, text: string)
      modifies this
      ensures effects == old(effects) + [Message(kind, text)]
      ensures localStorage == old(localStorage)
    {
      effects := effects + [Message(kind, text)];
    }

    /** `router.push(path)`, recorded as a navigation request. */
    method Navigate(path: string)
      modifies this
      ensures effects == old(effects) + [Push(path)]
      ensures localStorage == old(localStorage)
    {
      effects := effects + [Push(path)];
    }
  }
}
