/** The evaluation prompt of backend/app/utils/feedback_prompt.py: a numbered
    transcript of the question/answer pairs, accumulated in a loop, set
    inside a fixed evaluation template and stripped. */
module FeedbackPrompt {
  import opened Wrappers
  import opened Strings

  /** One entry of `qa_pairs`: the `question` and `answer` texts. */
  datatype QaPair = QaPair(question: string, answer: string)

  const QuestionLabel := "\nQuestion "
  const AnswerHeading := ":\n"
  const AnswerLabel := "\n\nAnswer:\n"

  /** The block the loop appends for the pair numbered `idx`. */
  function QaBlock(idx: int, qa: QaPair): string {
    QuestionLabel + IntToString(idx) + AnswerHeading + qa.question + AnswerLabel + qa.answer + "\n"
  }

  /** `block(first, qas[0]) + block(first + 1, qas[1]) + …`: the pairs'
      blocks, numbered from `first` on, in input order. */
  function Numbered(qas: seq<QaPair>, first: int, block: (int, QaPair) -> string): string
    decreases |qas|
  {
    if qas == [] then ""
    else Numbered(qas[..|qas| - 1], first, block) + block(first + |qas| - 1, qas[|qas| - 1])
  }

  /** The transcript of `qas`: their blocks, numbered from `first` on. */
  function Transcript(qas: seq<QaPair>, first: int): string {
    Numbered(qas, first, QaBlock)
  }

  const EvaluatorLine := "You are an expert interview evaluator."
  const EvaluatorHead := EvaluatorLine + "\n\nInterview type: "
  const TranscriptIntro := "\n\nBelow is a full interview transcript.\n\n"
  const EvaluationTail := "\n\nEvaluate the candidate and return feedback STRICTLY in JSON with this format:\n\n{\n  \"overall_score\": number (0-10),\n  \"strengths\": [list of strings],\n  \"weaknesses\": [list of strings],\n  \"communication_feedback\": string,\n  \"technical_feedback\": string,\n  \"suggestions\": [list of strings]\n}\n\nRules:\n- Be honest but constructive\n- Do NOT include explanations outside JSON\n- Do NOT add extra fields"

  /** The text of the prompt f-string between its opening and closing
      newline. */
  function FeedbackText(interviewType: string, transcript: string): string {
    EvaluatorHead + interviewType + TranscriptIntro + transcript + EvaluationTail
  }

  /** `build_feedback_prompt(interview_type, qa_pairs)`: the loop numbers the
      pairs from 1, and stripping the template removes exactly its framing
      newlines, so the prompt names the interview type and carries the whole
      transcript verbatim. */
  method BuildFeedbackPrompt(interviewType: string, qaPairs: seq<QaPair>) returns (prompt: string)
    ensures prompt == FeedbackText(interviewType, Transcript(qaPairs, 1))
    ensures prompt[|EvaluatorHead|..|EvaluatorHead| + |interviewType|] == interviewType
    ensures !PyIsSpace(prompt[0]) && !PyIsSpace(prompt[|prompt| - 1])
  {
    var formattedQa := "";
    for idx := 0 to |qaPairs|
      invariant formattedQa == Transcript(qaPairs[..idx], 1)
    {
      assert qaPairs[..idx + 1][..idx] == qaPairs[..idx];
      formattedQa := formattedQa + QaBlock(idx + 1, qaPairs[idx]);
    }
    assert qaPairs[..|qaPairs|] == qaPairs;
    var text := FeedbackText(interviewType, formattedQa);
    FeedbackTextShape(interviewType, formattedQa);
    prompt := PyStrip("\n" + text + "\n");
  }

  /** The template text opens with the evaluator line, names the interview
      type right after it, and ends with the last rule: stripping its framing
      newlines gives it back. */
  lemma FeedbackTextShape(interviewType: string, transcript: string)
    ensures var t := FeedbackText(interviewType, transcript);
      t != [] && t[0] == 'Y' && t[|t| - 1] == 's'
      && t[|EvaluatorHead|..|EvaluatorHead| + |interviewType|] == interviewType
      && PyStrip("\n" + t + "\n") == t
  {
    var t := FeedbackText(interviewType, transcript);
    var front := EvaluatorHead + interviewType + TranscriptIntro + transcript;
    assert t == front + EvaluationTail;
    assert EvaluatorHead[0] == 'Y';
    assert t[0] == 'Y';
    assert EvaluationTail[|EvaluationTail| - 1] == 's';
    assert t[|t| - 1] == 's';
    assert t[|EvaluatorHead|..|EvaluatorHead| + |interviewType|] == interviewType;
    StripFramed("\n", t, "\n", Python);
  }

  /** Numbering a concatenation numbers the first part, then the second
      part on from where the first stopped. */
  lemma {:induction false} NumberedAppend(a: seq<QaPair>, b: seq<QaPair>, first: int, block: (int, QaPair) -> string)
    ensures Numbered(a + b, first, block) == Numbered(a, first, block) + Numbered(b, first + |a|, block)
    decreases |b|
  {
    if b == [] {
      assert a + b == a;
    } else {
      var b', last := b[..|b| - 1], b[|b| - 1];
      assert (a + b)[..|a + b| - 1] == a + b' && (a + b)[|a + b| - 1] == last;
      NumberedAppend(a, b', first, block);
    }
  }

  /** The transcript of a concatenation is the first part's transcript
      followed by the second part's, numbered on from where the first
      stopped. */
  lemma TranscriptAppend(a: seq<QaPair>, b: seq<QaPair>, first: int)
    ensures Transcript(a + b, first) == Transcript(a, first) + Transcript(b, first + |a|)
  {
    NumberedAppend(a, b, first, QaBlock);
  }

  /** No pairs give an empty transcript; one pair gives its own block with
      the first number. */
  lemma TranscriptSmall(qa: QaPair, first: int)
    ensures Transcript([], first) == ""
    ensures Transcript([qa], first) == QaBlock(first, qa)
  {
    assert [qa][..0] == [];
  }

  /** The pairs are numbered consecutively in input order: the transcript
      from 1 is the blocks numbered 1, 2, … in turn, so the pair at index `k`
      is the block numbered `k + 1`. */
  lemma {:induction false} TranscriptNumbering(qas: seq<QaPair>, k: nat)
    requires k < |qas|
    ensures Transcript(qas, 1)
      == Transcript(qas[..k], 1) + QaBlock(k + 1, qas[k]) + Transcript(qas[k + 1..], k + 2)
  {
    assert qas[k..] == [qas[k]] + qas[k + 1..];
    assert qas == qas[..k] + qas[k..];
    TranscriptAppend(qas[..k], [qas[k]] + qas[k + 1..], 1);
    TranscriptAppend([qas[k]], qas[k + 1..], k + 1);
    TranscriptSmall(qas[k], k + 1);
  }

  /** A block carries its number, which reads back as the same integer, and
      the pair's question and answer verbatim after their labels. */
  lemma QaBlockCarries(idx: int, qa: QaPair)
    ensures var b := QaBlock(idx, qa);
      var n := IntToString(idx);
      var q := |QuestionLabel| + |n| + |AnswerHeading|;
      var a := q + |qa.question| + |AnswerLabel|;
      b[..|QuestionLabel|] == QuestionLabel
      && b[|QuestionLabel|..|QuestionLabel| + |n|] == n && ParseInt(n) == Some(idx)
      && b[q..q + |qa.question|] == qa.question
      && b[a..a + |qa.answer|] == qa.answer
  {
    var n := IntToString(idx);
    var b := QaBlock(idx, qa);
    IntToStringRoundTrip(idx);
    var h := QuestionLabel + n + AnswerHeading;
    assert b == h + qa.question + (AnswerLabel + qa.answer + "\n");
    assert b == QuestionLabel + n + (AnswerHeading + qa.question + AnswerLabel + qa.answer + "\n");
    var h2 := h + qa.question + AnswerLabel;
    assert b == h2 + qa.answer + "\n";
  }
}
