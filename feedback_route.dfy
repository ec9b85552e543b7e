/** `POST /interview/feedback` of backend/app/routes/feedback.py: the
    ownership and completion checks, the selection of the question/answer
    pairs, and the reading of the model's reply as JSON, directly or from
    the `{…}` span inside it. The model is the function `llm` (prompt and
    token limit to reply) and JSON decoding is the function `parse`. */
module FeedbackRoute {
  import opened Wrappers
  import opened InterviewTables
  import opened FeedbackPrompt
  import opened Http

  /** What `json.loads` does with a text: a value, or a decode error whose
      text is `str(e)`. */
  datatype ParseResult<J> = Parsed(value: J) | DecodeError(message: string)

  /** The token limit the route passes to the model. */
  const FeedbackMaxTokens := 1500

  const SessionNotFound := HttpError(404, "Interview session not found")
  const NotCompleted := HttpError(400, "Interview not completed yet")
  const NoJson := HttpError(500, "AI did not return valid JSON")
  const ParseFailurePrefix := "AI response could not be parsed: "

  /** A turn whose question and answer go into the transcript. */
  predicate IsAnsweredMainOf(t: Turn, s: int) {
    t.session == s && t.answer.Some? && !t.isFollowUp
  }

  /** The `qa_pairs`: the answered turns of session `s` in `created_at`
      order, without the follow-ups. */
  function QaPairsOf(turns: seq<Turn>, s: int): seq<QaPair>
    decreases |turns|
  {
    if turns == [] then []
    else
      var t := turns[|turns| - 1];
      QaPairsOf(turns[..|turns| - 1], s)
        + (if IsAnsweredMainOf(t, s) then [QaPair(t.question, t.answer.value)] else [])
  }

  /** The position of the first `c` in `s`, if any. */
  function FirstIndexOf(s: string, c: char): (r: Option<nat>)
    ensures r.Some? ==> r.value < |s| && s[r.value] == c
    decreases |s|
  {
    if s == [] then None
    else if s[0] == c then Some(0)
    else match FirstIndexOf(s[1..], c)
      case None => None
      case Some(k) => Some(k + 1)
  }

  /** The position of the last `c` in `s`, if any. */
  function LastIndexOf(s: string, c: char): (r: Option<nat>)
    ensures r.Some? ==> r.value < |s| && s[r.value] == c
    decreases |s|
  {
    if s == [] then None
    else if s[|s| - 1] == c then Some(|s| - 1)
    else LastIndexOf(s[..|s| - 1], c)
  }

  /** `re.search(r"\{[\s\S]*\}", text)`: the leftmost match starts at the
      first `{` and, being greedy, ends at the last `}` after it. */
  function JsonSpan(text: string): Option<string> {
    match (FirstIndexOf(text, '{'), LastIndexOf(text, '}'))
    case (Some(i), Some(j)) => if i < j then Some(text[i..j + 1]) else None
    case _ => None
  }

  /** The ownership check, then the completion check: the session row the
      route goes on with, or the error it raises. */
  function CheckSession(sessionId: int, userId: int, sessions: seq<SessionRow>, turns: seq<Turn>)
    : Result<SessionRow, HttpError>
  {
    match FindOwnedSession(sessions, sessionId, userId)
    case None => Err(SessionNotFound)
    case Some(row) =>
      if MainCount(turns, sessionId) < 5 then Err(NotCompleted) else Ok(row)
  }

  /** The reply read as JSON: directly, else the `{…}` span, else a 500. */
  function ReadFeedback<J>(response: string, parse: string -> ParseResult<J>): Result<J, HttpError> {
    match parse(response)
    case Parsed(v) => Ok(v)
    case DecodeError(_) =>
      match JsonSpan(response)
      case None => Err(NoJson)
      case Some(span) =>
        match parse(span)
        case Parsed(v) => Ok(v)
        case DecodeError(e) => Err(HttpError(500, ParseFailurePrefix + e))
  }

  /** The prompt the route sends: the evaluation prompt for the session's
      interview type over its question/answer pairs. */
  function FeedbackPromptFor(row: SessionRow, turns: seq<Turn>): string {
    FeedbackText(row.interviewType, Transcript(QaPairsOf(turns, row.id), 1))
  }

  /** `generate_feedback(session_id)` for the user `userId`. */
  function GenerateFeedback<J>(sessionId: int, userId: int, sessions: seq<SessionRow>, turns: seq<Turn>,
                               llm: (string, nat) -> string, parse: string -> ParseResult<J>)
    : Result<J, HttpError>
  {
    match CheckSession(sessionId, userId, sessions, turns)
    case Err(e) => Err(e)
    case Ok(row) => ReadFeedback(llm(FeedbackPromptFor(row, turns), FeedbackMaxTokens), parse)
  }

  /** The checks run in a fixed order: a session the user does not own is
      404 whatever its turns are, an owned session with fewer than five main
      turns is 400, and otherwise the checks pass with the owned row. */
  lemma CheckOrder(sessionId: int, userId: int, sessions: seq<SessionRow>, turns: seq<Turn>)
    ensures (forall row :: row in sessions ==> row.id != sessionId || row.userId != userId)
      ==> CheckSession(sessionId, userId, sessions, turns) == Err(SessionNotFound)
    ensures (exists row :: row in sessions && row.id == sessionId && row.userId == userId)
      && MainCount(turns, sessionId) < 5
      ==> CheckSession(sessionId, userId, sessions, turns) == Err(NotCompleted)
    ensures CheckSession(sessionId, userId, sessions, turns).Ok? <==>
      (exists row :: row in sessions && row.id == sessionId && row.userId == userId)
      && MainCount(turns, sessionId) >= 5
    ensures CheckSession(sessionId, userId, sessions, turns).Ok? ==>
      var row := CheckSession(sessionId, userId, sessions, turns).value;
      row in sessions && row.id == sessionId && row.userId == userId
  {
  }

  /** The route's answers: 404 exactly when the user owns no session with
      the id, 400 exactly when they own it but it has fewer than five main
      turns, and otherwise the model's reply to the evaluation prompt over
      the session's answered main turns (in table order, each question with
      its answer) with a limit of 1500 tokens, read as JSON. Every error is a
      404, a 400 or a 500. */
  lemma FeedbackOutcomes<J>(sessionId: int, userId: int, sessions: seq<SessionRow>, turns: seq<Turn>,
                            llm: (string, nat) -> string, parse: string -> ParseResult<J>)
    ensures var r := GenerateFeedback(sessionId, userId, sessions, turns, llm, parse);
      r == Err(SessionNotFound) <==>
        forall row :: row in sessions ==> row.id != sessionId || row.userId != userId
    ensures var r := GenerateFeedback(sessionId, userId, sessions, turns, llm, parse);
      r == Err(NotCompleted) <==>
        (exists row :: row in sessions && row.id == sessionId && row.userId == userId)
        && MainCount(turns, sessionId) < 5
    ensures var r := GenerateFeedback(sessionId, userId, sessions, turns, llm, parse);
      (exists row :: row in sessions && row.id == sessionId && row.userId == userId)
      && MainCount(turns, sessionId) >= 5
      ==> exists row :: row in sessions && row.id == sessionId && row.userId == userId
            && r == ReadFeedback(llm(FeedbackText(row.interviewType, Transcript(QaPairsOf(turns, sessionId), 1)), 1500), parse)
    ensures forall qa :: qa in QaPairsOf(turns, sessionId) <==>
      exists i :: 0 <= i < |turns| && IsAnsweredMainOf(turns[i], sessionId)
        && qa == QaPair(turns[i].question, turns[i].answer.value)
    ensures forall k :: 0 <= k <= |turns| ==>
      QaPairsOf(turns, sessionId) == QaPairsOf(turns[..k], sessionId) + QaPairsOf(turns[k..], sessionId)
    ensures var r := GenerateFeedback(sessionId, userId, sessions, turns, llm, parse);
      r.Err? ==> r.error.status in {404, 400, 500}
  {
    CheckOrder(sessionId, userId, sessions, turns);
    QaPairsExact(turns, sessionId);
    QaPairsSplit(turns, sessionId);
    var c := CheckSession(sessionId, userId, sessions, turns);
    if c.Ok? {
      var response := llm(FeedbackPromptFor(c.value, turns), FeedbackMaxTokens);
      ReadFeedbackCases(response, parse);
      assert c.value in sessions && c.value.id == sessionId && c.value.userId == userId;
    }
  }

  /** Reading the reply: a reply that decodes is the result; otherwise the
      span is tried, its absence is "AI did not return valid JSON", and its
      decode error is reported after "AI response could not be parsed: ". */
  lemma ReadFeedbackCases<J>(response: string, parse: string -> ParseResult<J>)
    ensures parse(response).Parsed? ==> ReadFeedback(response, parse) == Ok(parse(response).value)
    ensures parse(response).DecodeError? && JsonSpan(response).None? ==>
      ReadFeedback(response, parse) == Err(NoJson)
    ensures parse(response).DecodeError? && JsonSpan(response).Some? ==>
      var span := JsonSpan(response).value;
      && (parse(span).Parsed? ==> ReadFeedback(response, parse) == Ok(parse(span).value))
      && (parse(span).DecodeError? ==>
            ReadFeedback(response, parse) == Err(HttpError(500, ParseFailurePrefix + parse(span).message)))
    ensures ReadFeedback(response, parse).Err? ==> ReadFeedback(response, parse).error.status == 500
  {
  }

  /** `FirstIndexOf` finds the first occurrence, and none only when there
      is none. */
  lemma {:induction false} FirstIndexIsFirst(s: string, c: char)
    ensures FirstIndexOf(s, c).Some? ==> forall k :: 0 <= k < FirstIndexOf(s, c).value ==> s[k] != c
    ensures FirstIndexOf(s, c).None? <==> forall k :: 0 <= k < |s| ==> s[k] != c
    decreases |s|
  {
    if s != [] && s[0] != c {
      FirstIndexIsFirst(s[1..], c);
      assert forall k :: 1 <= k < |s| ==> s[k] == s[1..][k - 1];
    }
  }

  /** `LastIndexOf` finds the last occurrence, and none only when there is
      none. */
  lemma {:induction false} LastIndexIsLast(s: string, c: char)
    ensures LastIndexOf(s, c).Some? ==> forall k :: LastIndexOf(s, c).value < k < |s| ==> s[k] != c
    ensures LastIndexOf(s, c).None? <==> forall k :: 0 <= k < |s| ==> s[k] != c
    decreases |s|
  {
    if s != [] && s[|s| - 1] != c {
      var p := s[..|s| - 1];
      LastIndexIsLast(p, c);
      assert forall k :: 0 <= k < |p| ==> s[k] == p[k];
    }
  }

  /** There is a span exactly when some `{` comes before some `}`; the span
      runs from the first `{` to the last `}` inclusive. */
  lemma JsonSpanSpec(text: string)
    ensures JsonSpan(text).Some? <==>
      exists i, j :: 0 <= i < j < |text| && text[i] == '{' && text[j] == '}'
    ensures JsonSpan(text).Some? ==>
      exists i, j :: 0 <= i < j < |text| && JsonSpan(text).value == text[i..j + 1]
        && text[i] == '{' && text[j] == '}'
        && (forall k :: 0 <= k < i ==> text[k] != '{')
        && (forall k :: j < k < |text| ==> text[k] != '}')
  {
    FirstIndexIsFirst(text, '{');
    LastIndexIsLast(text, '}');
    var f, l := FirstIndexOf(text, '{'), LastIndexOf(text, '}');
    if f.Some? && l.Some? && f.value < l.value {
      assert text[f.value] == '{' && text[l.value] == '}';
    }
    if exists i, j :: 0 <= i < j < |text| && text[i] == '{' && text[j] == '}' {
      var i, j :| 0 <= i < j < |text| && text[i] == '{' && text[j] == '}';
      assert f.Some? && f.value <= i;
      assert l.Some? && j <= l.value;
    }
  }

  /** The selection is a filter: the pairs of a concatenation are the pairs
      of each part, in order. */
  lemma {:induction false} QaPairsAppend(a: seq<Turn>, b: seq<Turn>, s: int)
    ensures QaPairsOf(a + b, s) == QaPairsOf(a, s) + QaPairsOf(b, s)
    decreases |b|
  {
    if b == [] {
      assert a + b == a;
    } else {
      var b' := b[..|b| - 1];
      assert (a + b)[..|a + b| - 1] == a + b';
      assert (a + b)[|a + b| - 1] == b[|b| - 1];
      QaPairsAppend(a, b', s);
    }
  }

  /** Cutting the table anywhere, the pairs before the cut come first. */
  lemma QaPairsSplit(turns: seq<Turn>, s: int)
    ensures forall k :: 0 <= k <= |turns| ==>
      QaPairsOf(turns, s) == QaPairsOf(turns[..k], s) + QaPairsOf(turns[k..], s)
  {
    forall k | 0 <= k <= |turns|
      ensures QaPairsOf(turns, s) == QaPairsOf(turns[..k], s) + QaPairsOf(turns[k..], s)
    {
      var a, b := turns[..k], turns[k..];
      calc {
        QaPairsOf(turns, s);
        { assert a + b == turns; }
        QaPairsOf(a + b, s);
        { QaPairsAppend(a, b, s); }
        QaPairsOf(a, s) + QaPairsOf(b, s);
      }
    }
  }

  /** A single turn contributes its question and answer exactly when it is
      an answered main turn of the session. */
  lemma QaPairsSingle(t: Turn, s: int)
    ensures QaPairsOf([t], s) == if IsAnsweredMainOf(t, s) then [QaPair(t.question, t.answer.value)] else []
  {
    assert [t][..0] == [];
  }

  /** Every pair comes from an answered main turn of the session, every such
      turn gives a pair, and there are no more pairs than main turns. */
  lemma {:induction false} QaPairsExact(turns: seq<Turn>, s: int)
    ensures forall qa :: qa in QaPairsOf(turns, s) <==>
      exists i :: 0 <= i < |turns| && IsAnsweredMainOf(turns[i], s)
        && qa == QaPair(turns[i].question, turns[i].answer.value)
    ensures |QaPairsOf(turns, s)| <= MainCount(turns, s)
    decreases |turns|
  {
    if turns != [] {
      var p := turns[..|turns| - 1];
      QaPairsExact(p, s);
      assert forall k :: 0 <= k < |p| ==> p[k] == turns[k];
    }
  }
}
