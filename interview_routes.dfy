/** The two turn-table handlers of backend/app/routes/interview.py: asking
    the next main question of a session and recording an answer, followed
    by at most one follow-up question. `generate_with_groq` is the function
    `llm` (prompt and token limit to reply); the resume chunks the vector
    search finds for the question are given. */
module InterviewRoutes {
  import opened Wrappers
  import opened InterviewTables
  import PromptBuilder

  /** The token limit `generate_with_groq` uses when none is given. */
  const DefaultMaxTokens := 500

  /** The limit on main questions per session. */
  const MaxMainQuestions := 5

  /** Reply of `POST /interview/question`. */
  datatype QuestionReply =
    | Completed(totalMainQuestions: nat)
    | Asked(question: string, mainQuestionNumber: nat)

  /** Reply of `POST /interview/answer`. */
  datatype AnswerReply =
    | NoMainQuestion
    | FollowUpAlreadyAsked
    | SessionNotFound
    | FollowUp(followUpQuestion: string)

  /** What `POST /interview/answer` sends back: a reply, or the status-500
      response FastAPI gives when the handler raises. */
  datatype AnswerOutcome =
    | Replied(reply: AnswerReply)
    | ServerError

  /** The database the two handlers share: the turn table they write, the
      session table they read, and the next id the turn table hands out. */
  class InterviewDb {
    var turns: seq<Turn>
    var sessions: seq<SessionRow>
    var nextId: nat

    /** What the handlers keep true; see `TableValid`. */
    ghost predicate Valid()
      reads this
    {
      TableValid(turns, nextId)
    }

    /** An empty turn table over the given sessions. */
    constructor (sessions: seq<SessionRow>)
      ensures Valid()
      ensures this.turns == [] && this.sessions == sessions && nextId == 0
    {
      this.turns := [];
      this.sessions := sessions;
      nextId := 0;
    }

    /** `db.add(turn); db.commit()`: the new row takes the next id. */
    method AddTurn(session: int, question: string, isFollowUp: bool, parent: Option<nat>)
      requires TableValid(turns + [Turn(nextId, session, question, None, isFollowUp, parent)], nextId + 1)
      modifies this
      ensures Valid()
      ensures turns == old(turns) + [Turn(old(nextId), session, question, None, isFollowUp, parent)]
      ensures nextId == old(nextId) + 1 && sessions == old(sessions)
    {
      turns := turns + [Turn(nextId, session, question, None, isFollowUp, parent)];
      nextId := nextId + 1;
    }

    /** `generate_interview_question`: with five main turns already, reply
        "Interview completed" and add nothing; otherwise ask the model for a
        question built from the resume context, store it as a new main turn
        and reply with its number, which is between 1 and 5. */
    method GenerateInterviewQuestion(sessionId: int, interviewType: string, resumeChunks: seq<string>,
                                     llm: (string, nat) -> string)
      returns (reply: QuestionReply)
      requires Valid()
      modifies this
      ensures Valid()
      ensures sessions == old(sessions)
      ensures old(MainCount(turns, sessionId)) >= MaxMainQuestions ==>
        reply == Completed(MaxMainQuestions) && turns == old(turns) && nextId == old(nextId)
      ensures old(MainCount(turns, sessionId)) < MaxMainQuestions ==>
        && reply.Asked?
        && reply.mainQuestionNumber == old(MainCount(turns, sessionId)) + 1
        && 1 <= reply.mainQuestionNumber <= MaxMainQuestions
        && turns == old(turns) + [Turn(old(nextId), sessionId, reply.question, None, false, None)]
        && nextId == old(nextId) + 1
        && MainCount(turns, sessionId) == reply.mainQuestionNumber
      ensures reply.Asked? ==>
        reply.question == llm(PromptBuilder.BuildInterviewPrompt(interviewType, resumeChunks), DefaultMaxTokens)
    {
      var count := MainCount(turns, sessionId);
      if count >= MaxMainQuestions {
        return Completed(MaxMainQuestions);
      }
      var prompt := PromptBuilder.BuildInterviewPrompt(interviewType, resumeChunks);
      var question := llm(prompt, DefaultMaxTokens);
      MainTurnKeepsValid(turns, nextId, Turn(nextId, sessionId, question, None, false, None));
      MainCountAppend(turns, Turn(nextId, sessionId, question, None, false, None), sessionId);
      AddTurn(sessionId, question, false, None);
      reply := Asked(question, count + 1);
    }

    /** `submit_answer`: without a main turn in the session reply "No main
        question found" and change nothing. Otherwise write the answer onto
        the latest main turn (never a follow-up), replacing any earlier
        answer, and keep it whatever follows; then reply "Follow-up already
        asked" if that turn has a follow-up, report a missing session row,
        or ask the model for one follow-up and store it with that turn as
        its parent. */
    method SubmitAnswer(sessionId: int, answer: string, llm: (string, nat) -> string)
      returns (reply: AnswerReply)
      requires Valid()
      modifies this
      ensures Valid()
      ensures sessions == old(sessions)
      ensures LastMain(old(turns), sessionId).None? ==>
        reply == NoMainQuestion && turns == old(turns) && nextId == old(nextId)
      ensures LastMain(old(turns), sessionId).Some? ==>
        var k := LastMain(old(turns), sessionId).value;
        var main := old(turns)[k];
        var answered := old(turns)[k := main.(answer := Some(answer))];
        && !main.isFollowUp && main.session == sessionId
        && (HasFollowUp(old(turns), sessionId, main.id) ==>
              reply == FollowUpAlreadyAsked && turns == answered && nextId == old(nextId))
        && (!HasFollowUp(old(turns), sessionId, main.id) && FindSession(sessions, sessionId).None? ==>
              reply == SessionNotFound && turns == answered && nextId == old(nextId))
        && (!HasFollowUp(old(turns), sessionId, main.id) && FindSession(sessions, sessionId).Some? ==>
              var row := FindSession(sessions, sessionId).value;
              var question := llm(PromptBuilder.BuildFollowupPrompt(row.interviewType, main.question, answer), DefaultMaxTokens);
              && reply == FollowUp(question)
              && turns == answered + [Turn(old(nextId), sessionId, question, None, true, Some(main.id))]
              && nextId == old(nextId) + 1)
    {
      var last := LastMain(turns, sessionId);
      if last.None? {
        return NoMainQuestion;
      }
      var k := last.value;
      var main := turns[k];
      var answered := turns[k := main.(answer := Some(answer))];
      SetAnswerKeepsValid(turns, nextId, k, Some(answer));
      HasFollowUpSetAnswer(turns, k, Some(answer), sessionId, main.id);
      turns := answered;
      if HasFollowUp(turns, sessionId, main.id) {
        return FollowUpAlreadyAsked;
      }
      var session := FindSession(sessions, sessionId);
      if session.None? {
        return SessionNotFound;
      }
      var prompt := PromptBuilder.BuildFollowupPrompt(session.value.interviewType, main.question, answer);
      var question := llm(prompt, DefaultMaxTokens);
      FollowUpKeepsValid(turns, nextId, k, Turn(nextId, sessionId, question, None, true, Some(main.id)));
      AddTurn(sessionId, question, true, Some(main.id));
      reply := FollowUp(question);
    }

    /** `submit_answer` as written. The turn model declares no
        `parent_turn_id` column, so the follow-up lookup raises once the
        answer has been committed: the answer is stored, and the request ends
        in a server error. The handler never gets to reply with a follow-up or
        with "Follow-up already asked". */
    method SubmitAnswerAsWritten(sessionId: int, answer: string) returns (outcome: AnswerOutcome)
      requires Valid()
      modifies this
      ensures Valid()
      ensures sessions == old(sessions) && nextId == old(nextId)
      ensures LastMain(old(turns), sessionId).None? ==>
        outcome == Replied(NoMainQuestion) && turns == old(turns)
      ensures LastMain(old(turns), sessionId).Some? ==>
        var k := LastMain(old(turns), sessionId).value;
        outcome == ServerError && turns == old(turns)[k := old(turns)[k].(answer := Some(answer))]
      ensures outcome.Replied? ==> !outcome.reply.FollowUp? && !outcome.reply.FollowUpAlreadyAsked?
    {
      var last := LastMain(turns, sessionId);
      if last.None? {
        return Replied(NoMainQuestion);
      }
      var k := last.value;
      SetAnswerKeepsValid(turns, nextId, k, Some(answer));
      turns := turns[k := turns[k].(answer := Some(answer))];
      return ServerError;
    }
  }

  /** What the two handlers keep true of the turn table: ids are handed out
      in increasing order below `nextId`, no session has more than five main
      turns, follow-ups and only follow-ups have a parent, the parent is an
      earlier main turn of the follow-up's own session, and no two follow-ups
      share a parent. */
  ghost predicate TableValid(turns: seq<Turn>, nextId: nat) {
    IdsIncreasing(turns, nextId) && MainTurnsBounded(turns)
    && ParentsWellFormed(turns, nextId) && FollowUpsUnique(turns)
  }

  /** Ids are handed out in increasing order, all below `nextId`. */
  ghost predicate IdsIncreasing(turns: seq<Turn>, nextId: nat) {
    (forall i :: 0 <= i < |turns| ==> turns[i].id < nextId)
    && (forall i, j :: 0 <= i < j < |turns| ==> turns[i].id < turns[j].id)
  }

  /** No session has more than five main turns. */
  ghost predicate MainTurnsBounded(turns: seq<Turn>) {
    forall s :: MainCount(turns, s) <= MaxMainQuestions
  }

  /** Follow-ups and only follow-ups have a parent, below `nextId`, and the
      row with the parent's id is an earlier main turn of the same session. */
  ghost predicate ParentsWellFormed(turns: seq<Turn>, nextId: nat) {
    (forall i :: 0 <= i < |turns| ==> (turns[i].isFollowUp <==> turns[i].parent.Some?))
    && (forall i :: 0 <= i < |turns| && turns[i].parent.Some? ==> turns[i].parent.value < nextId)
    && (forall i, j :: 0 <= i < |turns| && 0 <= j < |turns| && turns[i].isFollowUp && turns[i].parent == Some(turns[j].id)
          ==> j < i && IsMainOf(turns[j], turns[i].session))
  }

  /** No two follow-ups share a parent. */
  ghost predicate FollowUpsUnique(turns: seq<Turn>) {
    forall i, j :: 0 <= i < j < |turns| && turns[i].isFollowUp && turns[j].isFollowUp
      ==> turns[i].parent != turns[j].parent
  }

  /** Adding a main turn to a session below the limit keeps the table valid. */
  lemma MainTurnKeepsValid(turns: seq<Turn>, nextId: nat, turn: Turn)
    requires TableValid(turns, nextId)
    requires turn.id == nextId && !turn.isFollowUp && turn.parent.None?
    requires MainCount(turns, turn.session) < MaxMainQuestions
    ensures TableValid(turns + [turn], nextId + 1)
  {
    var u := turns + [turn];
    forall s ensures MainCount(u, s) <= MaxMainQuestions {
      MainCountAppend(turns, turn, s);
    }
    AppendKeepsIds(turns, nextId, turn);
    MainTurnParents(turns, nextId, turn);
    MainTurnUnique(turns, turn);
  }

  /** A new row with the next id keeps ids increasing. */
  lemma AppendKeepsIds(turns: seq<Turn>, nextId: nat, turn: Turn)
    requires IdsIncreasing(turns, nextId) && turn.id == nextId
    ensures IdsIncreasing(turns + [turn], nextId + 1)
  {
    var u := turns + [turn];
    assert forall i :: 0 <= i < |turns| ==> u[i] == turns[i];
  }

  /** A main turn has no parent and is nobody's parent yet. */
  lemma MainTurnParents(turns: seq<Turn>, nextId: nat, turn: Turn)
    requires IdsIncreasing(turns, nextId) && ParentsWellFormed(turns, nextId)
    requires turn.id == nextId && !turn.isFollowUp && turn.parent.None?
    ensures ParentsWellFormed(turns + [turn], nextId + 1)
  {
    var u := turns + [turn];
    assert forall i :: 0 <= i < |turns| ==> u[i] == turns[i];
  }

  lemma MainTurnUnique(turns: seq<Turn>, turn: Turn)
    requires FollowUpsUnique(turns) && !turn.isFollowUp
    ensures FollowUpsUnique(turns + [turn])
  {
    var u := turns + [turn];
    assert forall i :: 0 <= i < |turns| ==> u[i] == turns[i];
  }

  /** Writing an answer onto a turn keeps the table valid. */
  lemma SetAnswerKeepsValid(turns: seq<Turn>, nextId: nat, k: nat, a: Option<string>)
    requires TableValid(turns, nextId) && k < |turns|
    ensures TableValid(turns[k := turns[k].(answer := a)], nextId)
  {
    var u := turns[k := turns[k].(answer := a)];
    forall s ensures MainCount(u, s) <= MaxMainQuestions {
      MainCountSetAnswer(turns, k, a, s);
    }
    SetAnswerKeepsShape(turns, nextId, k, a);
  }

  /** An answer changes no id, session, kind or parent. */
  lemma SetAnswerKeepsShape(turns: seq<Turn>, nextId: nat, k: nat, a: Option<string>)
    requires IdsIncreasing(turns, nextId) && ParentsWellFormed(turns, nextId) && FollowUpsUnique(turns)
    requires k < |turns|
    ensures var u := turns[k := turns[k].(answer := a)];
      IdsIncreasing(u, nextId) && ParentsWellFormed(u, nextId) && FollowUpsUnique(u)
  {
    var u := turns[k := turns[k].(answer := a)];
    assert forall i :: 0 <= i < |turns| ==>
      u[i].id == turns[i].id && u[i].session == turns[i].session
      && u[i].isFollowUp == turns[i].isFollowUp && u[i].parent == turns[i].parent;
  }

  /** Adding a follow-up to main turn `k`, which has none yet, keeps the
      table valid: this is where each main turn getting at most one
      follow-up is kept. */
  lemma FollowUpKeepsValid(turns: seq<Turn>, nextId: nat, k: nat, turn: Turn)
    requires TableValid(turns, nextId) && k < |turns| && !turns[k].isFollowUp
    requires turn.id == nextId && turn.session == turns[k].session
    requires turn.isFollowUp && turn.parent == Some(turns[k].id)
    requires !HasFollowUp(turns, turns[k].session, turns[k].id)
    ensures TableValid(turns + [turn], nextId + 1)
  {
    var u := turns + [turn];
    forall s ensures MainCount(u, s) <= MaxMainQuestions {
      MainCountAppend(turns, turn, s);
    }
    AppendKeepsIds(turns, nextId, turn);
    FollowUpParents(turns, nextId, k, turn);
    FollowUpUnique(turns, nextId, k, turn);
  }

  /** The new follow-up's parent is main turn `k`, the only row with that id. */
  lemma FollowUpParents(turns: seq<Turn>, nextId: nat, k: nat, turn: Turn)
    requires IdsIncreasing(turns, nextId) && ParentsWellFormed(turns, nextId)
    requires k < |turns| && !turns[k].isFollowUp
    requires turn.id == nextId && turn.session == turns[k].session
    requires turn.isFollowUp && turn.parent == Some(turns[k].id)
    ensures ParentsWellFormed(turns + [turn], nextId + 1)
  {
    var u := turns + [turn];
    assert forall i :: 0 <= i < |turns| ==> u[i] == turns[i];
    assert forall j :: 0 <= j < |turns| && turns[j].id == turns[k].id ==> j == k;
  }

  /** The new follow-up's parent had no follow-up, so parents stay unique. */
  lemma FollowUpUnique(turns: seq<Turn>, nextId: nat, k: nat, turn: Turn)
    requires FollowUpsUnique(turns) && ParentsWellFormed(turns, nextId)
    requires k < |turns| && turn.session == turns[k].session
    requires turn.isFollowUp && turn.parent == Some(turns[k].id)
    requires !HasFollowUp(turns, turns[k].session, turns[k].id)
    ensures FollowUpsUnique(turns + [turn])
  {
    var u := turns + [turn];
    assert forall i :: 0 <= i < |turns| ==> u[i] == turns[i];
  }

  /** Whether a turn has a follow-up does not depend on any answer. */
  lemma HasFollowUpSetAnswer(turns: seq<Turn>, k: nat, a: Option<string>, s: int, parentId: nat)
    requires k < |turns|
    ensures HasFollowUp(turns[k := turns[k].(answer := a)], s, parentId) == HasFollowUp(turns, s, parentId)
  {
    var u := turns[k := turns[k].(answer := a)];
    assert forall i :: 0 <= i < |turns| ==>
      u[i].session == turns[i].session && u[i].isFollowUp == turns[i].isFollowUp && u[i].parent == turns[i].parent;
  }
}
