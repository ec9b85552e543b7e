/** The client session store of frontend/src/lib/auth.ts: three keys of the
    browser's `localStorage`, written by setters and read back by getters,
    all of which do nothing without a `window`. */
module AuthStore {
  import opened Wrappers
  import opened Strings

  const TokenKey := "access_token"
  const ResumeIdKey := "resume_id"
  const SessionIdKey := "session_id"

  /** What `Number(text)` gives: an integer for the decimal form of an
      integer, and a value this model does not compute otherwise. */
  datatype JsNumber = Int(value: int) | NotInteger(text: string)

  /** `Number(text)` on the texts `String(n)` produces for integers `n`. */
  function Number(text: string): JsNumber {
    match ParseInt(text)
    case Some(i) => Int(i)
    case None => NotInteger(text)
  }

  /** `localStorage.getItem("access_token")`. */
  function ReadToken(items: map<string, string>): Option<string> {
    if TokenKey in items then Some(items[TokenKey]) else None
  }

  /** `id ? Number(id) : null` on `localStorage.getItem(key)`: a missing or
      empty item is no id. */
  function ReadId(items: map<string, string>, key: string): Option<JsNumber> {
    if key in items && items[key] != "" then Some(Number(items[key])) else None
  }

  /** `!!getToken()`: a token is stored and it is not empty. */
  predicate Authenticated(items: map<string, string>) {
    ReadToken(items).Some? && ReadToken(items).value != ""
  }

  /** The store as the browser sees it: whether a `window` exists, and the
      items of `localStorage`. */
  class SessionStore {
    const hasWindow: bool
    var items: map<string, string>

    constructor (hasWindow: bool, items: map<string, string>)
      ensures this.hasWindow == hasWindow && this.items == items
    {
      this.hasWindow := hasWindow;
      this.items := items;
    }

    /** `setToken(token)`. */
    method SetToken(token: string)
      modifies this
      ensures items == if hasWindow then old(items)[TokenKey := token] else old(items)
    {
      if hasWindow {
        items := items[TokenKey := token];
      }
    }

    /** `getToken()`. */
    function GetToken(): (r: Option<string>)
      reads this
      ensures r.Some? <==> hasWindow && TokenKey in items
      ensures r.Some? ==> r.value == items[TokenKey]
    {
      if hasWindow then ReadToken(items) else None
    }

    /** `removeToken()`: the token, the resume id and the session id go
        together. */
    method RemoveToken()
      modifies this
      ensures items == if hasWindow then old(items) - {TokenKey, ResumeIdKey, SessionIdKey} else old(items)
    {
      if hasWindow {
        items := items - {TokenKey, ResumeIdKey, SessionIdKey};
      }
    }

    /** `setResumeId(resumeId)`: stores `String(resumeId)`. */
    method SetResumeId(resumeId: int)
      modifies this
      ensures items == if hasWindow then old(items)[ResumeIdKey := IntToString(resumeId)] else old(items)
    {
      if hasWindow {
        items := items[ResumeIdKey := IntToString(resumeId)];
      }
    }

    /** `getResumeId()`. */
    function GetResumeId(): (r: Option<JsNumber>)
      reads this
      ensures r.Some? <==> hasWindow && ResumeIdKey in items && items[ResumeIdKey] != ""
    {
      if hasWindow then ReadId(items, ResumeIdKey) else None
    }

    /** `setSessionId(sessionId)`: stores `String(sessionId)`. */
    method SetSessionId(sessionId: int)
      modifies this
      ensures items == if hasWindow then old(items)[SessionIdKey := IntToString(sessionId)] else old(items)
    {
      if hasWindow {
        items := items[SessionIdKey := IntToString(sessionId)];
      }
    }

    /** `getSessionId()`. */
    function GetSessionId(): (r: Option<JsNumber>)
      reads this
      ensures r.Some? <==> hasWindow && SessionIdKey in items && items[SessionIdKey] != ""
    {
      if hasWindow then ReadId(items, SessionIdKey) else None
    }

    /** `isAuthenticated()`: true exactly when a non-empty token is stored
        and readable. */
    function IsAuthenticated(): (r: bool)
      reads this
      ensures r <==> hasWindow && TokenKey in items && items[TokenKey] != ""
    {
      GetToken().Some? && GetToken().value != ""
    }
  }

  /** An id stored with its setter reads back as the same integer. */
  lemma IdRoundTrip(items: map<string, string>, key: string, n: int)
    ensures ReadId(items[key := IntToString(n)], key) == Some(Int(n))
  {
    IntToStringRoundTrip(n);
  }

  /** Each setter writes only its own key: every other key reads as before. */
  lemma SetterLocality(items: map<string, string>, key: string, v: string)
    ensures key != TokenKey ==> ReadToken(items[key := v]) == ReadToken(items)
    ensures key != ResumeIdKey ==> ReadId(items[key := v], ResumeIdKey) == ReadId(items, ResumeIdKey)
    ensures key != SessionIdKey ==> ReadId(items[key := v], SessionIdKey) == ReadId(items, SessionIdKey)
  {
  }

  /** After clearing, every getter reads nothing and the user is no longer
      authenticated, while keys of other parts of the page remain. */
  lemma ClearAll(items: map<string, string>)
    ensures var cleared := items - {TokenKey, ResumeIdKey, SessionIdKey};
      && ReadToken(cleared).None?
      && ReadId(cleared, ResumeIdKey).None? && ReadId(cleared, SessionIdKey).None?
      && !Authenticated(cleared)
      && forall k :: k in items && k !in {TokenKey, ResumeIdKey, SessionIdKey} ==> k in cleared && cleared[k] == items[k]
  {
  }

  /** Storing a token authenticates exactly when the token is not empty, so
      storing "" leaves the user unauthenticated. */
  lemma TokenAuthenticates(items: map<string, string>, token: string)
    ensures Authenticated(items[TokenKey := token]) <==> token != ""
  {
  }

  /** The class reads through the same functions: with a window its getters
      are the map's readings, without one they read nothing and nothing is
      authenticated. */
  lemma StoreReadings(store: SessionStore)
    ensures store.hasWindow ==>
      && store.GetToken() == ReadToken(store.items)
      && store.GetResumeId() == ReadId(store.items, ResumeIdKey)
      && store.GetSessionId() == ReadId(store.items, SessionIdKey)
      && (store.IsAuthenticated() <==> Authenticated(store.items))
    ensures !store.hasWindow ==>
      store.GetToken().None? && store.GetResumeId().None? && store.GetSessionId().None? && !store.IsAuthenticated()
  {
  }
}
