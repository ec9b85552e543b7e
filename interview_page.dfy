/** The interview chat of frontend/src/app/interview/page.tsx: the first
    question fetched on load, the submit handler that posts an answer and
    then shows a follow-up, the next main question or the end of the
    interview, and the speech recogniser whose final results are typed into
    the input. The page's state is the class's fields; each handler is one
    step whose awaited replies are parameters, and `ChatState` is the
    snapshot its specification functions are written over. */
module InterviewPage {
  import opened Wrappers
  import opened Strings
  import opened ErrorHandler
  import opened Client

  datatype Sender = Ai | User

  /** A chat message; its id and timestamp are not modelled. */
  datatype Message = Message(sender: Sender, content: string)

  /** The data of a reply to `POST /interview/question`. */
  datatype QuestionData = QuestionData(message: Option<string>, question: string)

  /** The data of a reply to `POST /interview/answer`. */
  datatype AnswerData = AnswerData(followUpQuestion: Option<string>)

  /** One entry of a recognition event's `results`: whether it is final,
      and the transcript of its first alternative. */
  datatype SpeechResult = SpeechResult(isFinal: bool, transcript: string)

  /** A recognition error event's `error` and `message`, and what
      `JSON.stringify` makes of it (None for `undefined`). */
  datatype SpeechErrorEvent = SpeechErrorEvent(error: Option<string>, message: Option<string>, json: Option<string>)

  /** The page's chat state: every React state field except the listening
      indicator, which only the recogniser's handlers touch. */
  datatype ChatState = ChatState(
    messages: seq<Message>,
    input: string,
    loading: bool,
    interviewEnded: bool,
    error: string,
    currentQuestion: string,
    questionCount: int,
    isFollowUpMode: bool,
    interviewType: string,
    navigations: seq<string>)

  /** A handler's effect: the new state and the requests it issued. */
  datatype Step = Step(state: ChatState, requests: seq<Request>)

  const CompletedMessage := "Interview completed"
  const SetupPath := "/interview-setup"
  const FeedbackPrefix := "/feedback?session_id="
  /** The end message of a session found already complete on load. */
  const ResumedEndText := "Interview completed! All 5 questions have been answered. You'll now see your feedback."
  /** The end message after the last answer. */
  const EndText := "\U{1F389} Interview completed! All 5 questions answered. Loading your detailed feedback..."
  const NotSupported := "Speech recognition not supported in this browser."
  const SpeechErrorFallback := "Speech recognition error"

  /** The page the interview moves to once it has ended. */
  function FeedbackPath(sessionId: int): string {
    FeedbackPrefix + IntToString(sessionId)
  }

  /** The interview type: the query parameter, else the one stored in
      `sessionStorage`, else "". */
  function InitialType(param: Option<string>, stored: Option<string>): string {
    if Truthy(param) then param.value else if Truthy(stored) then stored.value else ""
  }

  function Initial(interviewType: string): ChatState {
    ChatState([], "", false, false, "", "", 0, false, interviewType, [])
  }

  /** A reply that reports the interview as completed. */
  predicate IsCompletion(d: QuestionData) {
    d.message == Some(CompletedMessage)
  }

  /** The effect that fetches the first question. Without a session id, a
      resume id or an interview type it issues nothing; a missing type is
      then taken from `sessionStorage`, or the page goes back to setup. */
  function LoadInitial(s: ChatState, sessionId: int, resumeId: Option<int>, storedType: Option<string>,
                       reply: Response<QuestionData>): Step
  {
    if sessionId == 0 || !IdPresent(resumeId) || s.interviewType == "" then
      if s.interviewType == "" then
        if Truthy(storedType) then Step(s.(interviewType := storedType.value), [])
        else Step(s.(navigations := s.navigations + [SetupPath]), [])
      else Step(s, [])
    else
      Step(FirstReply(s, sessionId, reply), [QuestionRequest(sessionId, s.interviewType, resumeId)])
  }

  /** The reply to the first question request: its error, a session found
      already complete, or the first question. */
  function FirstReply(s: ChatState, sessionId: int, reply: Response<QuestionData>): ChatState {
    match reply
    case Failure(err) => s.(error := GetErrorMessage(err))
    case Success(d) =>
      if IsCompletion(d) then
        s.(interviewEnded := true, messages := [Message(Ai, ResumedEndText)],
           navigations := s.navigations + [FeedbackPath(sessionId)])
      else
        s.(currentQuestion := d.question, questionCount := 1, isFollowUpMode := false,
           messages := [Message(Ai, d.question)])
  }

  /** The state once the answer is shown and sent: the user's message
      appended, the input cleared, loading set and the error cleared. */
  function Sent(s: ChatState): ChatState {
    s.(messages := s.messages + [Message(User, s.input)], input := "", loading := true, error := "")
  }

  /** `handleSubmitAnswer`: the answer is posted; a truthy follow-up
      becomes the current question, otherwise the next main question is
      fetched, which may report the interview as completed. */
  function Submit(s: ChatState, sessionId: int, resumeId: Option<int>,
                  answerReply: Response<AnswerData>, questionReply: Response<QuestionData>): Step
  {
    if JsTrim(s.input) == "" then Step(s, [])
    else
      Answered(Sent(s), [AnswerRequest(sessionId, s.currentQuestion, s.input)], sessionId, resumeId,
               answerReply, questionReply)
  }

  /** The reply to the answer: its error, a truthy follow-up, or the request
      for the next main question. */
  function Answered(t: ChatState, requests: seq<Request>, sessionId: int, resumeId: Option<int>,
                    answerReply: Response<AnswerData>, questionReply: Response<QuestionData>): Step
  {
    match answerReply
    case Failure(err) => Step(t.(error := GetErrorMessage(err), loading := false), requests)
    case Success(a) =>
      if Truthy(a.followUpQuestion) then
        var f := a.followUpQuestion.value;
        Step(t.(isFollowUpMode := true, currentQuestion := f, messages := t.messages + [Message(Ai, f)],
                loading := false), requests)
      else
        Asked(t.(isFollowUpMode := false), requests + [QuestionRequest(sessionId, t.interviewType, resumeId)],
              sessionId, questionReply)
  }

  /** The reply to the request for the next main question: its error, the
      completion, or the next question. */
  function Asked(t: ChatState, requests: seq<Request>, sessionId: int, questionReply: Response<QuestionData>): Step {
    match questionReply
    case Failure(err) => Step(t.(error := GetErrorMessage(err), loading := false), requests)
    case Success(d) =>
      if IsCompletion(d) then
        Step(t.(interviewEnded := true, messages := t.messages + [Message(Ai, EndText)],
                navigations := t.navigations + [FeedbackPath(sessionId)], loading := false), requests)
      else
        Step(t.(currentQuestion := d.question, questionCount := t.questionCount + 1,
                messages := t.messages + [Message(Ai, d.question)], loading := false), requests)
  }

  /** The load effect issues the question request exactly when the session
      id, the resume id and the interview type are all present; it sets the
      count to 1 or leaves it, and ends the interview only by also moving to
      the feedback page. */
  lemma LoadInitialOutcomes(s: ChatState, sessionId: int, resumeId: Option<int>, storedType: Option<string>,
                            reply: Response<QuestionData>, r: Step)
    requires r == LoadInitial(s, sessionId, resumeId, storedType, reply)
    ensures sessionId == 0 || !IdPresent(resumeId) || s.interviewType == "" ==> r.requests == []
    ensures sessionId != 0 && IdPresent(resumeId) && s.interviewType != "" ==>
      r.requests == [QuestionRequest(sessionId, s.interviewType, resumeId)]
    ensures r.state.questionCount == s.questionCount || r.state.questionCount == 1
    ensures r.state.interviewEnded && !s.interviewEnded ==>
      r.state.navigations == s.navigations + [FeedbackPath(sessionId)] && r.state.messages == [Message(Ai, ResumedEndText)]
  {
  }

  /** Submitting: a blank input changes nothing and sends nothing; otherwise
      the answer to the current question is posted first, the user's message
      stays in the chat whatever follows, the input is cleared and loading
      ends, and an error leaves only the user's message added. */
  lemma SubmitSends(s: ChatState, sessionId: int, resumeId: Option<int>,
                       answerReply: Response<AnswerData>, questionReply: Response<QuestionData>, r: Step)
    requires r == Submit(s, sessionId, resumeId, answerReply, questionReply)
    ensures JsTrim(s.input) == "" ==> r == Step(s, [])
    ensures JsTrim(s.input) != "" ==>
      && 1 <= |r.requests| <= 2
      && r.requests[0] == AnswerRequest(sessionId, s.currentQuestion, s.input)
      && (|r.requests| == 2 ==> r.requests[1] == QuestionRequest(sessionId, s.interviewType, resumeId))
      && r.state.input == "" && !r.state.loading
      && s.messages + [Message(User, s.input)] <= r.state.messages
      && |r.state.messages| <= |s.messages| + 2
      && (r.state.error == "" || r.state.messages == s.messages + [Message(User, s.input)])
  {
    if JsTrim(s.input) != "" {
      var sent := Sent(s);
      var first := [AnswerRequest(sessionId, s.currentQuestion, s.input)];
      assert r == Answered(sent, first, sessionId, resumeId, answerReply, questionReply);
      assert sent.messages == s.messages + [Message(User, s.input)];
    }
  }

  /** Progress through the interview: the count rises by at most one, and
      only when the next main question arrived and became the current one; a
      follow-up is shown without a question request; the interview moves to
      the feedback page only together with the end message. */
  lemma SubmitProgress(s: ChatState, sessionId: int, resumeId: Option<int>,
                       answerReply: Response<AnswerData>, questionReply: Response<QuestionData>, r: Step)
    requires r == Submit(s, sessionId, resumeId, answerReply, questionReply)
    ensures r.state.questionCount == s.questionCount || r.state.questionCount == s.questionCount + 1
    ensures r.state.questionCount == s.questionCount + 1 ==>
      |r.requests| == 2 && !r.state.isFollowUpMode && r.state.error == ""
      && r.state.currentQuestion == Last(r.state.messages).content
    ensures r.state.isFollowUpMode ==> |r.requests| <= 1
    ensures r.state.navigations != s.navigations ==>
      r.state.interviewEnded && r.state.navigations == s.navigations + [FeedbackPath(sessionId)]
      && Last(r.state.messages) == Message(Ai, EndText) && |r.requests| == 2
  {
  }

  /** The reply branches of a non-blank submit: after the user's message, a
      follow-up is shown and becomes the current question with the count
      kept; otherwise the next main question does, with the count one
      higher; a completion shows the end message and moves to the feedback
      page; a failed request keeps its error text. */
  lemma SubmitReplies(s: ChatState, sessionId: int, resumeId: Option<int>,
                      answerReply: Response<AnswerData>, questionReply: Response<QuestionData>, r: Step)
    requires r == Submit(s, sessionId, resumeId, answerReply, questionReply)
    requires JsTrim(s.input) != ""
    ensures answerReply.Failure? ==> r.state.error == GetErrorMessage(answerReply.error)
    ensures answerReply.Success? && Truthy(answerReply.data.followUpQuestion) ==>
      var f := answerReply.data.followUpQuestion.value;
      && r.state.currentQuestion == f && r.state.isFollowUpMode
      && r.state.messages == s.messages + [Message(User, s.input), Message(Ai, f)]
      && r.state.questionCount == s.questionCount && |r.requests| == 1
    ensures answerReply.Success? && !Truthy(answerReply.data.followUpQuestion) && questionReply.Failure? ==>
      r.state.error == GetErrorMessage(questionReply.error) && r.state.questionCount == s.questionCount
    ensures answerReply.Success? && !Truthy(answerReply.data.followUpQuestion) && questionReply.Success? ==>
      var d := questionReply.data;
      && !r.state.isFollowUpMode && r.state.error == ""
      && (IsCompletion(d) ==>
            && r.state.interviewEnded && r.state.questionCount == s.questionCount
            && r.state.messages == s.messages + [Message(User, s.input), Message(Ai, EndText)]
            && r.state.navigations == s.navigations + [FeedbackPath(sessionId)])
      && (!IsCompletion(d) ==>
            && r.state.currentQuestion == d.question && r.state.questionCount == s.questionCount + 1
            && r.state.messages == s.messages + [Message(User, s.input), Message(Ai, d.question)]
            && r.state.interviewEnded == s.interviewEnded)
  {
    var sent := Sent(s);
    var first := [AnswerRequest(sessionId, s.currentQuestion, s.input)];
    assert r == Answered(sent, first, sessionId, resumeId, answerReply, questionReply);
    assert sent.messages == s.messages + [Message(User, s.input)];
  }

  function Last<T>(s: seq<T>): T
    requires s != []
  {
    s[|s| - 1]
  }

  /** The results a recognition event reports from `resultIndex` on. */
  function Pending(results: seq<SpeechResult>, resultIndex: nat): seq<SpeechResult> {
    if resultIndex <= |results| then results[resultIndex..] else []
  }

  /** `finalTranscript` before trimming: each final result's transcript
      followed by a space, in order; interim results add nothing. */
  function Collected(rs: seq<SpeechResult>): string
    decreases |rs|
  {
    if rs == [] then ""
    else
      var last := rs[|rs| - 1];
      Collected(rs[..|rs| - 1]) + (if last.isFinal then last.transcript + " " else "")
  }

  /** The input after dictation: the trimmed text appended after one space,
      or on its own when the input was empty; nothing when it is empty. */
  function AppendSpoken(prev: string, spoken: string): string {
    if spoken == "" then prev else if prev != "" then prev + " " + spoken else spoken
  }

  /** The state after a recognition result event. */
  function Heard(s: ChatState, results: seq<SpeechResult>, resultIndex: nat): ChatState {
    s.(input := AppendSpoken(s.input, JsTrim(Collected(Pending(results, resultIndex)))))
  }

  /** `ev?.error || ev?.message || JSON.stringify(ev) || "Speech recognition
      error"`: never empty, and the first truthy of the three wins. */
  function SpeechErrorText(ev: SpeechErrorEvent): (r: string)
    ensures r != ""
    ensures Truthy(ev.error) ==> r == ev.error.value
    ensures !Truthy(ev.error) && Truthy(ev.message) ==> r == ev.message.value
    ensures !Truthy(ev.error) && !Truthy(ev.message) && Truthy(ev.json) ==> r == ev.json.value
    ensures !Truthy(ev.error) && !Truthy(ev.message) && !Truthy(ev.json) ==> r == SpeechErrorFallback
  {
    if Truthy(ev.error) then ev.error.value
    else if Truthy(ev.message) then ev.message.value
    else if Truthy(ev.json) then ev.json.value
    else SpeechErrorFallback
  }

  /** The loop of `recognition.onresult`: from `resultIndex` to the end of
      the results, each final result's transcript and a space are appended;
      an index past the end gathers nothing. */
  method FinalTranscript(results: seq<SpeechResult>, resultIndex: nat) returns (finalTranscript: string)
    ensures finalTranscript == Collected(Pending(results, resultIndex))
  {
    finalTranscript := "";
    var i := resultIndex;
    while i < |results|
      invariant resultIndex <= i
      invariant resultIndex <= |results| ==> i <= |results| && finalTranscript == Collected(results[resultIndex..i])
      invariant resultIndex > |results| ==> finalTranscript == ""
      decreases |results| - i
    {
      if results[i].isFinal {
        finalTranscript := finalTranscript + results[i].transcript + " ";
      }
      assert results[resultIndex..i + 1][..i - resultIndex] == results[resultIndex..i];
      i := i + 1;
    }
    if resultIndex <= |results| {
      assert results[resultIndex..i] == results[resultIndex..];
    }
  }

  /** The recognition object kept in `recognitionRef`, with the two
      control flags the page sets on it. */
  class Recognition {
    var keepListening: bool
    var isRecognizing: bool

    constructor ()
      ensures keepListening && !isRecognizing
    {
      keepListening := true;
      isRecognizing := false;
    }
  }

  /** The page: its query parameters and stored resume id as constants, its
      React state as fields, and the recogniser once created. */
  class InterviewPage {
    const sessionId: int
    const resumeId: Option<int>
    var messages: seq<Message>
    var input: string
    var loading: bool
    var interviewEnded: bool
    var error: string
    var currentQuestion: string
    var questionCount: int
    var isFollowUpMode: bool
    var interviewType: string
    var navigations: seq<string>
    var isListening: bool
    var recognition: Recognition?

    function Chat(): ChatState
      reads this
    {
      ChatState(messages, input, loading, interviewEnded, error, currentQuestion, questionCount,
                isFollowUpMode, interviewType, navigations)
    }

    /** The page as first rendered, from `session_id`, the stored resume id,
        `interview_type` and the stored interview type. */
    constructor (sessionId: int, resumeId: Option<int>, typeParam: Option<string>, storedType: Option<string>)
      ensures this.sessionId == sessionId && this.resumeId == resumeId
      ensures Chat() == Initial(InitialType(typeParam, storedType))
      ensures !isListening && recognition == null
    {
      this.sessionId := sessionId;
      this.resumeId := resumeId;
      messages, input, loading, interviewEnded, error := [], "", false, false, "";
      currentQuestion, questionCount, isFollowUpMode := "", 0, false;
      interviewType, navigations := InitialType(typeParam, storedType), [];
      isListening, recognition := false, null;
    }

    /** The effect that fetches the first question: the guard, then the
        continuation that handles the reply. */
    method LoadInitialQuestion(storedType: Option<string>, reply: Response<QuestionData>)
      returns (requests: seq<Request>)
      modifies this
      ensures Step(Chat(), requests) == LoadInitial(old(Chat()), sessionId, resumeId, storedType, reply)
      ensures isListening == old(isListening) && recognition == old(recognition)
    {
      requests := [];
      if sessionId == 0 || !IdPresent(resumeId) || interviewType == "" {
        if interviewType == "" {
          if Truthy(storedType) {
            interviewType := storedType.value;
          } else {
            navigations := navigations + [SetupPath];
          }
        }
        return;
      }
      requests := [QuestionRequest(sessionId, interviewType, resumeId)];
      OnFirstQuestionReply(reply);
    }

    /** The continuation after the first question's reply arrives. */
    method OnFirstQuestionReply(reply: Response<QuestionData>)
      modifies this
      ensures Chat() == FirstReply(old(Chat()), sessionId, reply)
      ensures isListening == old(isListening) && recognition == old(recognition)
    {
      match reply {
        case Failure(err) =>
          error := GetErrorMessage(err);
        case Success(d) =>
          if IsCompletion(d) {
            interviewEnded := true;
            messages := [Message(Ai, ResumedEndText)];
            navigations := navigations + [FeedbackPath(sessionId)];
            return;
          }
          currentQuestion := d.question;
          questionCount := 1;
          isFollowUpMode := false;
          messages := [Message(Ai, d.question)];
      }
    }

    /** `handleSubmitAnswer`: the part before the first `await`, then the
        continuation that handles the answer's reply. */
    method HandleSubmitAnswer(answerReply: Response<AnswerData>, questionReply: Response<QuestionData>)
      returns (requests: seq<Request>)
      modifies this
      ensures Step(Chat(), requests) == Submit(old(Chat()), sessionId, resumeId, answerReply, questionReply)
      ensures isListening == old(isListening) && recognition == old(recognition)
    {
      if JsTrim(input) == "" {
        return [];
      }
      var answer := AnswerRequest(sessionId, currentQuestion, input);
      messages := messages + [Message(User, input)];
      input := "";
      loading := true;
      error := "";
      requests := OnAnswerReply([answer], answerReply, questionReply);
    }

    /** The continuation after the answer's reply arrives. */
    method OnAnswerReply(sent: seq<Request>, answerReply: Response<AnswerData>, questionReply: Response<QuestionData>)
      returns (requests: seq<Request>)
      modifies this
      ensures Step(Chat(), requests) == Answered(old(Chat()), sent, sessionId, resumeId, answerReply, questionReply)
      ensures isListening == old(isListening) && recognition == old(recognition)
    {
      requests := sent;
      match answerReply {
        case Failure(err) =>
          error := GetErrorMessage(err);
          loading := false;
        case Success(a) =>
          if Truthy(a.followUpQuestion) {
            isFollowUpMode := true;
            currentQuestion := a.followUpQuestion.value;
            messages := messages + [Message(Ai, a.followUpQuestion.value)];
            loading := false;
          } else {
            isFollowUpMode := false;
            requests := requests + [QuestionRequest(sessionId, interviewType, resumeId)];
            OnQuestionReply(questionReply);
          }
      }
    }

    /** The continuation after the next question's reply arrives. */
    method OnQuestionReply(questionReply: Response<QuestionData>)
      modifies this
      ensures Chat() == Asked(old(Chat()), [], sessionId, questionReply).state
      ensures isListening == old(isListening) && recognition == old(recognition)
    {
      match questionReply {
        case Failure(err) =>
          error := GetErrorMessage(err);
        case Success(d) =>
          if IsCompletion(d) {
            interviewEnded := true;
            messages := messages + [Message(Ai, EndText)];
            navigations := navigations + [FeedbackPath(sessionId)];
          } else {
            currentQuestion := d.question;
            questionCount := questionCount + 1;
            messages := messages + [Message(Ai, d.question)];
          }
      }
      loading := false;
    }

    /** `recognition.onresult`: the final results from `resultIndex` on are
        gathered, trimmed, and appended to the input. */
    method OnResult(results: seq<SpeechResult>, resultIndex: nat)
      modifies this
      ensures Chat() == Heard(old(Chat()), results, resultIndex)
      ensures isListening == old(isListening) && recognition == old(recognition)
    {
      var finalTranscript := FinalTranscript(results, resultIndex);
      finalTranscript := JsTrim(finalTranscript);
      if finalTranscript != "" {
        input := if input != "" then input + " " + finalTranscript else finalTranscript;
      }
    }

    /** `recognition.onstart`. */
    method OnStart()
      requires recognition != null
      modifies this, recognition
      ensures recognition == old(recognition) && recognition.isRecognizing && isListening
      ensures recognition.keepListening == old(recognition.keepListening) && Chat() == old(Chat())
    {
      recognition.isRecognizing := true;
      isListening := true;
    }

    /** `recognition.onend`: recognition is started again exactly when
        `keepListening` is set; otherwise listening stops. */
    method OnEnd() returns (restarted: bool)
      requires recognition != null
      modifies this, recognition
      ensures restarted == old(recognition.keepListening)
      ensures recognition == old(recognition) && !recognition.isRecognizing
      ensures recognition.keepListening == old(recognition.keepListening)
      ensures isListening == (restarted && old(isListening)) && Chat() == old(Chat())
    {
      recognition.isRecognizing := false;
      if recognition.keepListening {
        restarted := !recognition.isRecognizing;
      } else {
        restarted := false;
        isListening := false;
      }
    }

    /** `recognition.onerror`. */
    method OnError(ev: SpeechErrorEvent)
      modifies this
      ensures Chat() == old(Chat()).(error := SpeechErrorText(ev))
      ensures isListening == old(isListening) && recognition == old(recognition)
    {
      error := SpeechErrorText(ev);
    }

    /** `startListening`: the recogniser is created once, `keepListening` is
        set, and recognition is started; when `start()` throws, listening is
        not marked. */
    method StartListening(hasWindow: bool, supported: bool, startThrows: bool) returns (started: bool)
      modifies this, recognition
      ensures started <==> hasWindow && supported && !startThrows
      ensures !(hasWindow && supported) ==> recognition == old(recognition) && isListening == old(isListening)
      ensures !hasWindow ==> Chat() == old(Chat())
      ensures hasWindow && !supported ==> Chat() == old(Chat()).(error := NotSupported)
      ensures hasWindow && supported ==>
        && recognition != null && recognition.keepListening
        && (old(recognition) == null ==> fresh(recognition) && !recognition.isRecognizing)
        && (old(recognition) != null ==>
              recognition == old(recognition) && recognition.isRecognizing == old(recognition.isRecognizing))
        && isListening == (started || old(isListening))
        && Chat() == if started then old(Chat()).(error := "") else old(Chat())
    {
      started := false;
      if !hasWindow {
        return;
      }
      if !supported {
        error := NotSupported;
        return;
      }
      if recognition == null {
        recognition := new Recognition();
      }
      recognition.keepListening := true;
      if !startThrows {
        started := true;
        isListening := true;
        error := "";
      }
    }

    /** `stopListening`: `keepListening` is cleared before the recogniser is
        stopped, so its end does not restart it. */
    method StopListening() returns (stopped: bool)
      modifies this, recognition
      ensures stopped == (old(recognition) != null) && recognition == old(recognition)
      ensures stopped ==> !recognition.keepListening && recognition.isRecognizing == old(recognition.isRecognizing)
      ensures !isListening && Chat() == old(Chat())
    {
      stopped := recognition != null;
      if recognition != null {
        recognition.keepListening := false;
      }
      isListening := false;
    }
  }

  /** The collected text of a concatenation is the collected texts of its
      parts, in order. */
  lemma {:induction false} CollectedAppend(a: seq<SpeechResult>, b: seq<SpeechResult>)
    ensures Collected(a + b) == Collected(a) + Collected(b)
    decreases |b|
  {
    if b == [] {
      assert a + b == a;
    } else {
      var b' := b[..|b| - 1];
      assert (a + b)[..|a + b| - 1] == a + b';
      CollectedAppend(a, b');
    }
  }

  /** The final results of a list, in order. */
  function Finals(rs: seq<SpeechResult>): seq<SpeechResult>
    decreases |rs|
  {
    if rs == [] then []
    else Finals(rs[..|rs| - 1]) + (if rs[|rs| - 1].isFinal then [rs[|rs| - 1]] else [])
  }

  /** Interim results never reach the input: collecting all results is
      collecting the final ones alone. */
  lemma {:induction false} InterimIgnored(rs: seq<SpeechResult>)
    ensures Collected(rs) == Collected(Finals(rs))
    decreases |rs|
  {
    if rs != [] {
      var p := rs[..|rs| - 1];
      var last := rs[|rs| - 1];
      InterimIgnored(p);
      assert Finals(rs) == Finals(p) + (if last.isFinal then [last] else []);
      if last.isFinal {
        CollectedAppend(Finals(p), [last]);
        assert [last][..0] == [];
        assert Collected([last]) == last.transcript + " ";
      } else {
        assert Collected(rs) == Collected(p);
        assert Finals(rs) == Finals(p);
      }
    }
  }

  /** The collected text is all whitespace exactly when every final
      transcript is, so an event whose final results are blank leaves the
      input as it was. */
  lemma {:induction false} CollectedBlank(rs: seq<SpeechResult>)
    ensures AllSatisfy(Collected(rs), JavaScript) <==>
      forall i :: 0 <= i < |rs| && rs[i].isFinal ==> AllSatisfy(rs[i].transcript, JavaScript)
    decreases |rs|
  {
    if rs != [] {
      var p := rs[..|rs| - 1];
      var last := rs[|rs| - 1];
      CollectedBlank(p);
      assert forall i :: 0 <= i < |p| ==> p[i] == rs[i];
      var tail := if last.isFinal then last.transcript + " " else "";
      assert Collected(rs) == Collected(p) + tail;
      assert AllSatisfy(Collected(p) + tail, JavaScript) <==>
        AllSatisfy(Collected(p), JavaScript) && AllSatisfy(tail, JavaScript) by {
        var c := Collected(p);
        assert forall k :: 0 <= k < |c| ==> (c + tail)[k] == c[k];
        assert forall k :: 0 <= k < |tail| ==> (c + tail)[|c| + k] == tail[k];
      }
      if last.isFinal {
        assert tail[|tail| - 1] == ' ';
        assert AllSatisfy(tail, JavaScript) <==> AllSatisfy(last.transcript, JavaScript) by {
          assert forall k :: 0 <= k < |last.transcript| ==> tail[k] == last.transcript[k];
        }
      }
    }
  }

  /** Dictation: with nothing spoken the input is unchanged; otherwise the
      old input is kept in front, the spoken text is at the end with no
      whitespace at either of its ends, and one space separates the two
      when the input was not empty. */
  lemma HeardInput(s: ChatState, results: seq<SpeechResult>, resultIndex: nat)
    ensures var spoken := JsTrim(Collected(Pending(results, resultIndex)));
      var input := Heard(s, results, resultIndex).input;
      && (spoken == "" <==> forall i :: resultIndex <= i < |results| && results[i].isFinal ==>
                                AllSatisfy(results[i].transcript, JavaScript))
      && (spoken == "" ==> input == s.input)
      && (spoken != "" ==>
            && !JsIsSpace(spoken[0]) && !JsIsSpace(spoken[|spoken| - 1])
            && input[..|s.input|] == s.input && input[|input| - |spoken|..] == spoken
            && |input| == |s.input| + |spoken| + (if s.input == "" then 0 else 1))
  {
    var pending := Pending(results, resultIndex);
    StripEmpty(Collected(pending), JavaScript);
    StripEnds(Collected(pending), JavaScript);
    CollectedBlank(pending);
    if resultIndex <= |results| {
      assert forall i :: resultIndex <= i < |results| ==> results[i] == pending[i - resultIndex];
    }
  }

  /** The feedback page the interview moves to carries the session id,
      which reads back from the path. */
  lemma FeedbackPathReadsBack(sessionId: int)
    ensures var path := FeedbackPath(sessionId);
      path[..|FeedbackPrefix|] == FeedbackPrefix && ParseInt(path[|FeedbackPrefix|..]) == Some(sessionId)
  {
    IntToStringRoundTrip(sessionId);
    assert FeedbackPath(sessionId)[|FeedbackPrefix|..] == IntToString(sessionId);
  }
}
