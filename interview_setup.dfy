/** The interview setup page of frontend/src/app/interview-setup/page.tsx:
    the choice of an interview type, the start of a session for the stored
    resume, and the move to the interview with both in the query string. */
module InterviewSetup {
  import opened Wrappers
  import opened Strings
  import opened ErrorHandler
  import opened Client
  import AuthStore

  /** The three interview types offered. */
  datatype InterviewType = Technical | Hr | Aptitude

  /** The id each type is sent and stored under. */
  function TypeName(t: InterviewType): string {
    match t
    case Technical => "Technical"
    case Hr => "HR"
    case Aptitude => "Aptitude"
  }

  /** The data of a successful session start. */
  datatype StartData = StartData(sessionId: int)

  /** The tab's `sessionStorage`. */
  class TabStorage {
    var items: map<string, string>

    constructor (items: map<string, string>)
      ensures this.items == items
    {
      this.items := items;
    }
  }

  const TypeKey := "interviewType"
  const NoType := "Please select an interview type"
  const InterviewPrefix := "/interview?session_id="
  const TypeParam := "&interview_type="

  /** The interview page's address for a session and a type. */
  function InterviewPath(sessionId: int, typeName: string): string {
    InterviewPrefix + IntToString(sessionId) + TypeParam + typeName
  }

  /** Both parameters read back from the address: the digits after
      `session_id=` give the session id, and the text after
      `&interview_type=` is the type. */
  lemma InterviewPathReadsBack(sessionId: int, typeName: string)
    ensures var path := InterviewPath(sessionId, typeName);
      var digits := IntToString(sessionId);
      && path[..|InterviewPrefix|] == InterviewPrefix
      && ParseInt(path[|InterviewPrefix|..|InterviewPrefix| + |digits|]) == Some(sessionId)
      && path[|InterviewPrefix| + |digits|..|InterviewPrefix| + |digits| + |TypeParam|] == TypeParam
      && path[|path| - |typeName|..] == typeName
  {
    var digits := IntToString(sessionId);
    var path := InterviewPath(sessionId, typeName);
    IntToStringRoundTrip(sessionId);
    assert path == InterviewPrefix + digits + TypeParam + typeName;
    assert path[|InterviewPrefix|..|InterviewPrefix| + |digits|] == digits;
    assert path[|InterviewPrefix| + |digits|..|InterviewPrefix| + |digits| + |TypeParam|] == TypeParam;
  }

  /** What the page renders: the resume-required notice, or the type
      cards. */
  datatype View = ResumeRequired | TypeCards

  function ViewFor(resumeId: Option<int>): (v: View)
    ensures v == ResumeRequired <==> !IdPresent(resumeId)
  {
    if IdPresent(resumeId) then TypeCards else ResumeRequired
  }

  class InterviewSetupPage {
    const resumeId: Option<int>
    var selectedType: Option<InterviewType>
    var loading: bool
    var error: string
    var navigations: seq<string>

    constructor (resumeId: Option<int>)
      ensures this.resumeId == resumeId && selectedType.None? && !loading && error == "" && navigations == []
    {
      this.resumeId := resumeId;
      selectedType, loading, error, navigations := None, false, "", [];
    }

    /** Clicking a type card. */
    method SelectType(t: InterviewType)
      modifies this
      ensures selectedType == Some(t) && loading == old(loading) && error == old(error)
      ensures navigations == old(navigations)
    {
      selectedType := Some(t);
    }

    /** `handleStartInterview`: without a type or a resume id, an error and
        no request; otherwise the session is started, and a success stores
        the type in `sessionStorage` and the session id in the store, then
        moves to the interview page. */
    method HandleStartInterview(store: AuthStore.SessionStore, tab: TabStorage, reply: Response<StartData>)
      returns (requests: seq<Request>)
      modifies this, store, tab
      ensures selectedType.None? || !IdPresent(resumeId) ==>
        requests == [] && error == NoType && store.items == old(store.items) && tab.items == old(tab.items)
        && loading == old(loading) && navigations == old(navigations)
      ensures selectedType.Some? && IdPresent(resumeId) ==>
        var name := TypeName(selectedType.value);
        && requests == [StartSessionRequest(resumeId.value, name)] && !loading
        && (reply.Success? ==>
              && error == ""
              && tab.items == old(tab.items)[TypeKey := name]
              && store.items == (if store.hasWindow
                                 then old(store.items)[AuthStore.SessionIdKey := IntToString(reply.data.sessionId)]
                                 else old(store.items))
              && navigations == old(navigations) + [InterviewPath(reply.data.sessionId, name)])
        && (reply.Failure? ==>
              error == GetErrorMessage(reply.error) && store.items == old(store.items)
              && tab.items == old(tab.items) && navigations == old(navigations))
      ensures selectedType == old(selectedType)
    {
      if selectedType.None? || !IdPresent(resumeId) {
        error := NoType;
        return [];
      }
      loading := true;
      error := "";
      var name := TypeName(selectedType.value);
      requests := [StartSessionRequest(resumeId.value, name)];
      match reply {
        case Success(data) =>
          tab.items := tab.items[TypeKey := name];
          store.SetSessionId(data.sessionId);
          navigations := navigations + [InterviewPath(data.sessionId, name)];
        case Failure(err) =>
          error := GetErrorMessage(err);
      }
      loading := false;
    }
  }
}
