/** The question prompts of backend/app/utils/prompt_builder.py: a role chosen
    case-insensitively from the interview type, the resume context, and a
    fixed block of rules, stripped of the template's framing newlines. */
module PromptBuilder {
  import opened Strings

  /** The three interviewer personas. */
  datatype Role = Technical | Hr | Aptitude

  /** `interview_type.lower() == "technical"`, then `== "hr"`, else aptitude. */
  function RoleOf(interviewType: string): Role {
    if AsciiLower(interviewType) == "technical" then Technical
    else if AsciiLower(interviewType) == "hr" then Hr
    else Aptitude
  }

  function RoleText(role: Role): string {
    match role
    case Technical => "a technical interviewer"
    case Hr => "an HR interviewer"
    case Aptitude => "an aptitude test interviewer"
  }

  function FollowupFocus(role: Role): string {
    match role
    case Technical => FollowupFocusTechnical
    case Hr => FollowupFocusHr
    case Aptitude => FollowupFocusAptitude
  }

  const FollowupFocusTechnical := "Ask a follow-up that digs deeper into technical details, implementation, trade-offs, or clarifications."
  const FollowupFocusHr := "Ask a thoughtful follow-up that explores their answer deeper, like 'How did that make you feel?' or 'What did you learn from that?'"
  const FollowupFocusAptitude := "Ask a follow-up that extends the reasoning, like 'What if...?' or asks them to explain their approach."

  function QuestionFocus(role: Role): string {
    match role
    case Technical => QuestionFocusTechnical
    case Hr => QuestionFocusHr
    case Aptitude => QuestionFocusAptitude
  }

  const QuestionFocusTechnical := "Ask about technical skills, programming languages, frameworks, system design, coding problems, or technical projects mentioned in the resume."
  const QuestionFocusHr := "Ask about soft skills, experience, work style, teamwork, challenges overcome, or career goals. Make it conversational and natural."
  const QuestionFocusAptitude := "Ask a logical reasoning, problem-solving, or analytical question. You can reference the resume but keep the question general and focused on reasoning skills."

  const FollowupRules := "\n\nRules:\n- Ask only ONE follow-up question\n- Make it natural and conversational\n- Don't repeat the question\n- Keep it concise\n- Be a real interviewer"
  const QuestionRules := "\n\nRules:\n- Ask only ONE natural interview question\n- Do NOT mention 'Here is a question from resume'\n- Do NOT give answers\n- Be conversational and direct\n- Ask naturally like you're speaking to the candidate\n- Do NOT say 'Based on your resume' - just ask the question naturally"

  /** The opening line of both templates, up to the first interpolated text. */
  function Opening(role: Role): string {
    "You are " + RoleText(role) + "."
  }

  const MainQuestionLabel := "\n\nMain Question:\n"
  const AnswerLabel := "\n\nCandidate Answer:\n"
  const ContextLabel := "\n\nResume Context:\n"

  /** The text of the follow-up f-string between its opening and closing
      newline. */
  function FollowupText(role: Role, mainQuestion: string, candidateAnswer: string): string {
    Opening(role) + MainQuestionLabel + mainQuestion + AnswerLabel + candidateAnswer + FollowupTail(role)
  }

  /** What follows the candidate's answer: the focus line and the rules. */
  function FollowupTail(role: Role): string {
    "\n\n" + FollowupFocus(role) + FollowupRules
  }

  /** `build_followup_prompt(interview_type, main_question, candidate_answer)`:
      the f-string, which starts and ends with a newline, stripped. */
  function BuildFollowupPrompt(interviewType: string, mainQuestion: string, candidateAnswer: string): string {
    PyStrip("\n" + FollowupText(RoleOf(interviewType), mainQuestion, candidateAnswer) + "\n")
  }

  /** The resume context: each chunk's content prefixed with "- ", joined by
      blank lines, in input order. */
  function Context(chunks: seq<string>): string {
    Join(Bulleted(chunks), "\n\n")
  }

  function Bulleted(chunks: seq<string>): (r: seq<string>)
    ensures |r| == |chunks| && forall i :: 0 <= i < |chunks| ==> r[i] == "- " + chunks[i]
  {
    seq(|chunks|, i requires 0 <= i < |chunks| => "- " + chunks[i])
  }

  /** The text of the question f-string between its opening and closing
      newline. */
  function QuestionText(role: Role, chunks: seq<string>): string {
    Opening(role) + ContextLabel + Context(chunks) + QuestionTail(role)
  }

  /** What follows the resume context: the focus line and the rules. */
  function QuestionTail(role: Role): string {
    "\n\n" + QuestionFocus(role) + QuestionRules
  }

  /** `build_interview_prompt(interview_type, resume_chunks)`, with the chunks
      given by their `content`. */
  function BuildInterviewPrompt(interviewType: string, chunks: seq<string>): string {
    PyStrip("\n" + QuestionText(RoleOf(interviewType), chunks) + "\n")
  }

  /** Stripping a template that is one newline, a text that starts and ends
      with non-whitespace, and one newline, gives back that text. */
  lemma StripTemplate(text: string)
    requires text != [] && !PyIsSpace(text[0]) && !PyIsSpace(text[|text| - 1])
    ensures PyStrip("\n" + text + "\n") == text
  {
    StripFramed("\n", text, "\n", Python);
  }

  /** The pieces of `h + q + l + a + tail` sit at their offsets. */
  lemma PartsAt(h: string, q: string, l: string, a: string, tail: string)
    ensures var t := h + q + l + a + tail;
      var at := |h| + |q| + |l|;
      t[..|h|] == h && t[|h|..|h| + |q|] == q && t[at..at + |a|] == a
  {
  }

  /** The middle piece of `h + m + tail` sits right after `h`. */
  lemma MiddleAt(h: string, m: string, tail: string)
    ensures var t := h + m + tail; t[..|h|] == h && t[|h|..|h| + |m|] == m
  {
  }

  /** The ends of a concatenation are the ends of its outer pieces. */
  lemma EndsOf(x: string, y: string)
    requires x != [] && y != []
    ensures (x + y)[0] == x[0] && (x + y)[|x + y| - 1] == y[|y| - 1]
  {
  }

  /** The role is chosen case-insensitively: the three types the setup page
      sends, in any letter case, pick their persona; any other text picks the
      aptitude persona. */
  lemma RoleChoice(interviewType: string)
    ensures AsciiLower(interviewType) == "technical" ==> RoleOf(interviewType) == Technical
    ensures AsciiLower(interviewType) == "hr" ==> RoleOf(interviewType) == Hr
    ensures AsciiLower(interviewType) != "technical" && AsciiLower(interviewType) != "hr"
      ==> RoleOf(interviewType) == Aptitude
    ensures RoleOf("Technical") == RoleOf("TECHNICAL") == Technical
    ensures RoleOf("HR") == RoleOf("hr") == Hr
    ensures RoleOf("Aptitude") == Aptitude && RoleOf(" technical") == Aptitude
  {
    assert AsciiLower("Technical") == "technical";
    assert AsciiLower("TECHNICAL") == "technical";
    assert AsciiLower("HR") == "hr";
    assert AsciiLower("hr") == "hr";
  }

  lemma OpeningStart(role: Role)
    ensures |Opening(role)| > 0 && Opening(role)[0] == 'Y'
  {
  }

  lemma FollowupTailEnd(role: Role)
    ensures var t := FollowupTail(role); t != [] && t[|t| - 1] == 'r'
  {
    EndsOf("\n\n" + FollowupFocus(role), FollowupRules);
  }

  lemma QuestionTailEnd(role: Role)
    ensures var t := QuestionTail(role); t != [] && t[|t| - 1] == 'y'
  {
    EndsOf("\n\n" + QuestionFocus(role), QuestionRules);
  }

  /** The follow-up text starts with the persona line and ends with the last
      rule, so neither end is whitespace. */
  lemma FollowupTextEnds(role: Role, mainQuestion: string, candidateAnswer: string)
    ensures var t := FollowupText(role, mainQuestion, candidateAnswer);
      t != [] && t[0] == 'Y' && t[|t| - 1] == 'r'
  {
    OpeningStart(role);
    FollowupTailEnd(role);
    EndsOf(Opening(role) + MainQuestionLabel + mainQuestion + AnswerLabel + candidateAnswer, FollowupTail(role));
  }

  /** The follow-up prompt is the template without its framing newlines and
      so has no leading or trailing whitespace. */
  lemma FollowupPromptShape(interviewType: string, mainQuestion: string, candidateAnswer: string)
    ensures var r := BuildFollowupPrompt(interviewType, mainQuestion, candidateAnswer);
      r == FollowupText(RoleOf(interviewType), mainQuestion, candidateAnswer)
      && !PyIsSpace(r[0]) && !PyIsSpace(r[|r| - 1])
  {
    var t := FollowupText(RoleOf(interviewType), mainQuestion, candidateAnswer);
    FollowupTextEnds(RoleOf(interviewType), mainQuestion, candidateAnswer);
    StripTemplate(t);
  }

  /** The follow-up text opens with the persona line and carries the main
      question and the candidate's answer verbatim after their labels. */
  lemma FollowupTextCarries(role: Role, mainQuestion: string, candidateAnswer: string)
    ensures var head := Opening(role) + MainQuestionLabel;
      var at := |head| + |mainQuestion| + |AnswerLabel|;
      var t := FollowupText(role, mainQuestion, candidateAnswer);
      t[..|head|] == head
      && t[|head|..|head| + |mainQuestion|] == mainQuestion
      && t[at..at + |candidateAnswer|] == candidateAnswer
  {
    PartsAt(Opening(role) + MainQuestionLabel, mainQuestion, AnswerLabel, candidateAnswer, FollowupTail(role));
  }

  /** The question text starts with the persona line and ends with the last
      rule, so neither end is whitespace. */
  lemma QuestionTextEnds(role: Role, chunks: seq<string>)
    ensures var t := QuestionText(role, chunks);
      t != [] && t[0] == 'Y' && t[|t| - 1] == 'y'
  {
    OpeningStart(role);
    QuestionTailEnd(role);
    EndsOf(Opening(role) + ContextLabel + Context(chunks), QuestionTail(role));
  }

  /** The question prompt is the template without its framing newlines and so
      has no leading or trailing whitespace. */
  lemma InterviewPromptShape(interviewType: string, chunks: seq<string>)
    ensures var r := BuildInterviewPrompt(interviewType, chunks);
      r == QuestionText(RoleOf(interviewType), chunks)
      && !PyIsSpace(r[0]) && !PyIsSpace(r[|r| - 1])
  {
    var t := QuestionText(RoleOf(interviewType), chunks);
    QuestionTextEnds(RoleOf(interviewType), chunks);
    StripTemplate(t);
  }

  /** The question text opens with the persona line and carries the resume
      context verbatim after its label. */
  lemma QuestionTextCarries(role: Role, chunks: seq<string>)
    ensures var head := Opening(role) + ContextLabel;
      var t := QuestionText(role, chunks);
      t[..|head|] == head && t[|head|..|head| + |Context(chunks)|] == Context(chunks)
  {
    MiddleAt(Opening(role) + ContextLabel, Context(chunks), QuestionTail(role));
  }

  /** The context lists the chunks in order: no chunks give the empty
      context, one chunk gives its bullet line, and the context of a
      concatenation is the two contexts separated by one blank line. */
  lemma ContextInOrder(a: seq<string>, b: seq<string>)
    ensures Context([]) == ""
    ensures |a| == 1 ==> Context(a) == "- " + a[0]
    ensures a != [] && b != [] ==> Context(a + b) == Context(a) + "\n\n" + Context(b)
  {
    if a != [] && b != [] {
      assert Bulleted(a + b) == Bulleted(a) + Bulleted(b);
      JoinAppend(Bulleted(a), Bulleted(b), "\n\n");
    }
  }
}
