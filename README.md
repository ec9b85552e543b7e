# AI interview bot — a verified model of its core

The AI interview bot is a mock-interview application. The candidate signs up
and uploads a PDF resume. The backend cleans the resume text and cuts it into
overlapping chunks. Through a chat page, which also takes dictated answers,
the candidate then answers five main questions. A language model generates
each question from the resume and the chosen interview type (Technical, HR
or Aptitude), and may ask one follow-up question per main question. At the
end the same model writes a JSON evaluation of the transcript, and the
feedback page renders it with a colour and a badge for the overall score.

This Dafny project models the parts of the system whose behaviour can be
stated precisely, and proves properties of them:

* the backend's resume pipeline (`chunk_text`, `clean_resume_text`);
* the prompt builders;
* the turn table behind `/interview/question` and `/interview/answer`;
* the gatekeeping and JSON extraction of `/interview/feedback`;
* the account rules of `/auth/signup` and `/auth/login`;
* the browser's session store (`auth.ts`);
* the error-message extraction (`errorHandler.ts`);
* the interview chat page as a state machine, including speech dictation;
* the upload, sign-up, setup and feedback pages.

Modules follow the source files, one per file:

* `TextChunker`, `TextCleaner`, `PromptBuilder` and `FeedbackPrompt` model
  backend/app/utils.
* `InterviewTables`, `InterviewRoutes`, `FeedbackRoute` and `AuthRoutes`
  model backend/app/routes.
* `AuthStore` and `ErrorHandler` model frontend/src/lib.
* `InterviewPage`, `FeedbackPage`, `ResumeUpload`, `InterviewSetup` and
  `SignupForm` model the pages and the sign-up form.
* `Wrappers`, `Strings`, `Http` and `Client` hold shared types and string
  functions. `Strings` covers Python's `str.strip` and JavaScript's `trim`,
  each with its own whitespace set, joins, ASCII lower-casing, and decimal
  printing and parsing of integers.

Code that changes state in place is modelled as classes whose methods carry
`modifies` clauses:

* the users table;
* the turn table, whose invariant `TableValid` keeps ids increasing, at most
  five main turns per session, and at most one follow-up per main turn;
* `localStorage`;
* each page's React state.

Each page handler is one method. It receives the backend's replies as
parameters and returns the requests it issued. The chat page's handlers are
proved equal to pure step functions (`LoadInitial`, `Submit`, `Heard`), and
the lemmas about those functions state what the page promises.

The language model, the vector search, `json.loads`, password hashing and
token creation are function-valued parameters and are left uninterpreted.

frontend/src/lib/auth.ts:51-53 uses `!!getToken()`, so a stored empty token
does not authenticate; `AuthStore.TokenAuthenticates` proves this.

## Model

| member | source | states |
|---|---|---|
| Strings.StripEnds | backend/app/utils/text_chunker.py:23 | `strip()` gives an empty string or one whose first and last characters are not whitespace |
| Strings.StripEmpty | backend/app/utils/text_chunker.py:23 | `strip()` gives "" exactly when every character is whitespace |
| Strings.StripFramed | backend/app/utils/prompt_builder.py:16-35 | stripping whitespace around a text with non-space ends gives back exactly that text |
| Strings.LeadingRun | backend/app/utils/text_cleaner.py:22 | the leading whitespace count covers only whitespace and stops at the first non-space character |
| Strings.TrailingRun | backend/app/utils/text_cleaner.py:22 | the trailing whitespace count covers only whitespace and stops at the last non-space character |
| Strings.AsciiLowerMatches | backend/app/utils/prompt_builder.py:6 | lower-casing a text gives an all-lower-case ASCII word exactly when the text has the word's length and each character is the word's letter in either case |
| Strings.JoinAppend | frontend/src/lib/errorHandler.ts:42 | joining two non-empty lists is joining each and putting the separator between them |
| Strings.NatToString | frontend/src/lib/auth.ts:23-27 | the decimal form is non-empty, all digits, and has no leading zero |
| Strings.IntToStringRoundTrip | frontend/src/lib/auth.ts:23-35 | `String(n)` read back as an integer gives `n` |
| Strings.DigitsValueOfNat | frontend/src/lib/auth.ts:29-35 | the value of a natural number's decimal digits is that number |
| Strings.Utf16Length | frontend/src/components/SignupForm.tsx:29 | a JavaScript string's length in UTF-16 units is between its code-point count and twice that |
| TextChunker.ChunkText | backend/app/utils/text_chunker.py:3-27 | empty text gives no chunks, whatever the sizes; otherwise, with chunk_size > overlap, the count is ceil(len / (chunk_size − overlap)); chunk k is the stripped slice starting at k·(chunk_size − overlap) |
| TextChunker.ChunkLoopStalls | backend/app/utils/text_chunker.py:19-25 | on a non-empty text with chunk_size <= overlap, `start` never passes 0, so the loop condition holds at every iteration; with chunk_size == overlap it stays at 0 |
| TextChunker.PySlice | backend/app/utils/text_chunker.py:21 | Python slicing with a start inside the text and an end at or after it is the plain slice cut at the end of the text |
| TextChunker.OffsetIsProduct | backend/app/utils/text_chunker.py:16-25 | the loop's k-th `start` is k·(chunk_size − overlap) |
| TextChunker.IterationCount | backend/app/utils/text_chunker.py:19-25 | the loop runs ceil(len / (chunk_size − overlap)) times |
| TextChunker.WindowAt | backend/app/utils/text_chunker.py:19-25 | a window starting inside the text is the slice from its start, cut at the end; consecutive windows start chunk_size − overlap apart, so chunks follow the text in order |
| TextChunker.ChunkLength | backend/app/utils/text_chunker.py:20-23 | no window and no chunk is longer than chunk_size |
| TextChunker.ConsecutiveWindowsOverlap | backend/app/utils/text_chunker.py:20-25 | when window k is full, its last `overlap` characters are the first `overlap` of window k + 1 |
| TextChunker.DefaultChunkCount | backend/app/utils/text_chunker.py:5-6 | the defaults 1000/100 meet the loop's requirement and give ceil(len / 900) chunks |
| TextCleaner.CleanResumeText | backend/app/utils/text_cleaner.py:4-5 | empty input gives "" |
| TextCleaner.CleanResumeTextSpec | backend/app/utils/text_cleaner.py:3-24 | the result is no longer than the input, has no tab and none of •, – and ●, and no whitespace at either end; its non-whitespace, non-bullet characters are those left by page-number removal, in order, and so exactly the input's when the collapsed text holds no page number |
| TextCleaner.Collapse | backend/app/utils/text_cleaner.py:8-11 | no longer than its input; CollapseUnits and CollapseAppend fix the output run by run |
| TextCleaner.CollapseUnits | backend/app/utils/text_cleaner.py:8-11 | a non-empty run of `[ \t]` (or `\n`) becomes the single replacement character, and a character outside the class is kept |
| TextCleaner.CollapseAppend | backend/app/utils/text_cleaner.py:8-11 | the substitution distributes over `+` wherever the cut is not inside a run, so each maximal run becomes exactly one replacement and every other character stays in place |
| TextCleaner.PageNumberMatch | backend/app/utils/text_cleaner.py:14 | the length of a case-insensitive `Page\s+\d+` match at the start, never beyond the text; PageNumberExample shows a whole match |
| TextCleaner.RemovePageNumbers | backend/app/utils/text_cleaner.py:14 | no longer than its input; the lemmas below fix what is kept and what is deleted |
| TextCleaner.RemovePageNumbersPrefix | backend/app/utils/text_cleaner.py:14 | text before the first match is kept as it is and removal goes on after it |
| TextCleaner.PageNumberMatchFront | backend/app/utils/text_cleaner.py:14 | "page" in any letter case, Python whitespace and digits not followed by a digit form one match, up to the last digit |
| TextCleaner.PageNumberDropped | backend/app/utils/text_cleaner.py:14 | such a match at the front is deleted whole and removal goes on with the rest |
| TextCleaner.RemovePageNumbersKeeps | backend/app/utils/text_cleaner.py:14 | the result is a subsequence of the input: removal only deletes characters, keeping the others in order |
| TextCleaner.RemoveChar | backend/app/utils/text_cleaner.py:17-19 | no longer than its input; RemoveCharAppend and RemoveCharSingle fix it character by character |
| TextCleaner.RemoveCharAppend | backend/app/utils/text_cleaner.py:17-19 | `replace(c, "")` distributes over `+` |
| TextCleaner.RemoveCharSingle | backend/app/utils/text_cleaner.py:17-19 | one character is dropped exactly when it is `c` and kept otherwise |
| TextCleaner.RunLength | backend/app/utils/text_cleaner.py:8-11 | a run starts exactly when the first character belongs to the run class |
| TextCleaner.RunStops | backend/app/utils/text_cleaner.py:8-11 | a run is maximal: it ends at the text's end or before a character outside the class |
| TextCleaner.CollapseRunsAreSingle | backend/app/utils/text_cleaner.py:8-11 | after `[ \t]+ → " "` (or `\n+ → "\n"`) run characters are all the replacement and never adjacent |
| TextCleaner.CollapseReplaces | backend/app/utils/text_cleaner.py:8-11 | every run character left after a substitution is its replacement character |
| TextCleaner.CollapseSeparates | backend/app/utils/text_cleaner.py:8-11 | no two run characters are adjacent after a substitution |
| TextCleaner.CollapseKeepsContent | backend/app/utils/text_cleaner.py:8-11 | with the run characters erased, output and input are the same text |
| TextCleaner.CollapseChars | backend/app/utils/text_cleaner.py:8-11 | a collapsed text holds only input characters and the replacement |
| TextCleaner.RemovePageNumbersIdentity | backend/app/utils/text_cleaner.py:14 | text with no `Page\s+\d+` match anywhere is left unchanged |
| TextCleaner.PageNumberExample | backend/app/utils/text_cleaner.py:14 | the match ignores case and spans whitespace and digits: "pAGE \t 12" is removed whole |
| TextCleaner.RemoveCharSpec | backend/app/utils/text_cleaner.py:17-19 | `replace(c, "")` leaves no `c` and adds no character |
| TextCleaner.StripChars | backend/app/utils/text_cleaner.py:22 | `strip()` adds no character |
| TextCleaner.VisibleCollapse | backend/app/utils/text_cleaner.py:8-11 | the two run substitutions keep every non-whitespace, non-bullet character, in order |
| TextCleaner.VisibleRemoveChar | backend/app/utils/text_cleaner.py:17-19 | deleting a bullet keeps every non-whitespace, non-bullet character, in order |
| TextCleaner.VisibleStrip | backend/app/utils/text_cleaner.py:22 | `strip()` keeps every non-whitespace, non-bullet character, in order |
| PromptBuilder.RoleChoice | backend/app/utils/prompt_builder.py:6-14 | "technical" in any case gives the technical role, "hr" the HR role, anything else aptitude |
| PromptBuilder.RoleOf | backend/app/utils/prompt_builder.py:6-14 | the role and focus chosen from the lower-cased type; RoleChoice states the three-way choice |
| PromptBuilder.BuildFollowupPrompt | backend/app/utils/prompt_builder.py:1-35 | the stripped follow-up template; FollowupPromptShape and FollowupTextCarries state its text |
| PromptBuilder.BuildInterviewPrompt | backend/app/utils/prompt_builder.py:38-74 | the stripped question template; InterviewPromptShape and QuestionTextCarries state its text |
| PromptBuilder.Context | backend/app/utils/prompt_builder.py:42-45 | the bulleted chunks joined by blank lines; Bulleted and ContextInOrder state it |
| PromptBuilder.FollowupPromptShape | backend/app/utils/prompt_builder.py:1-35 | the follow-up prompt is the template text for the chosen role without its framing newlines, with no whitespace at either end |
| PromptBuilder.FollowupTextCarries | backend/app/utils/prompt_builder.py:16-25 | the follow-up text opens with the persona and carries the main question and the answer verbatim after their labels |
| PromptBuilder.InterviewPromptShape | backend/app/utils/prompt_builder.py:38-74 | the question prompt uses the same role choice and has no whitespace at either end |
| PromptBuilder.QuestionTextCarries | backend/app/utils/prompt_builder.py:57-63 | the question text carries the resume context verbatim after its label |
| PromptBuilder.Bulleted | backend/app/utils/prompt_builder.py:42-45 | each chunk becomes "- " + chunk, in input order |
| PromptBuilder.ContextInOrder | backend/app/utils/prompt_builder.py:42-45 | no chunks give "", one gives its bullet line, and a concatenation gives the two contexts separated by a blank line |
| FeedbackPrompt.BuildFeedbackPrompt | backend/app/utils/feedback_prompt.py:1-39 | the loop's transcript numbers the pairs from 1; the stripped prompt names the interview type right after the evaluator line and has no whitespace at either end |
| FeedbackPrompt.QaBlock | backend/app/utils/feedback_prompt.py:5-11 | the block for one numbered pair; QaBlockCarries states what it carries |
| FeedbackPrompt.Transcript | backend/app/utils/feedback_prompt.py:4-11 | the numbered blocks; TranscriptNumbering, TranscriptAppend and TranscriptSmall state the numbering |
| FeedbackPrompt.FeedbackText | backend/app/utils/feedback_prompt.py:13-39 | the evaluation template; FeedbackTextShape states its shape |
| FeedbackPrompt.NumberedAppend | backend/app/utils/feedback_prompt.py:4-11 | numbering a concatenation numbers the first part, then the second part on from where the first stopped |
| FeedbackPrompt.FeedbackTextShape | backend/app/utils/feedback_prompt.py:13-39 | the template opens with the evaluator line, names the type, ends with the last rule, and stripping returns it |
| FeedbackPrompt.TranscriptAppend | backend/app/utils/feedback_prompt.py:4-11 | the transcript of a concatenation continues the numbering into the second part |
| FeedbackPrompt.TranscriptSmall | backend/app/utils/feedback_prompt.py:2-4 | no pairs give an empty transcript; one pair gives its block |
| FeedbackPrompt.TranscriptNumbering | backend/app/utils/feedback_prompt.py:4-11 | the pair at index k is the block numbered k + 1, between the earlier and the later blocks |
| FeedbackPrompt.QaBlockCarries | backend/app/utils/feedback_prompt.py:5-11 | a block carries its number, which reads back, and the pair's question and answer verbatim |
| InterviewTables.MainCountAppend | backend/app/routes/interview.py:27-34 | adding a turn raises a session's main count by one exactly when it is a main turn of that session |
| InterviewTables.MainCountSetAnswer | backend/app/routes/interview.py:91-92 | writing an answer does not change any main count |
| InterviewTables.MainCountBounds | backend/app/routes/interview.py:27-34 | the main count is at most the number of turns and is 0 exactly when the session has no main turn |
| InterviewTables.MainCount | backend/app/routes/interview.py:27-34 | the number of main turns of a session; MainCountAppend, MainCountSetAnswer and MainCountBounds state how it moves |
| InterviewTables.HasFollowUp | backend/app/routes/interview.py:94-106 | whether a follow-up of the session names the turn as parent; FollowUpUnique and HasFollowUpSetAnswer state its role |
| InterviewTables.LastMain | backend/app/routes/interview.py:77-85 | the found turn is a main turn of the session |
| InterviewTables.LastMainIsLatest | backend/app/routes/interview.py:77-87 | it is the latest such turn, and none is found exactly when there is none |
| InterviewTables.FindSession | backend/app/routes/interview.py:109-114 | the found row has the id; none is found exactly when no row has it |
| InterviewTables.FindOwnedSession | backend/app/routes/feedback.py:23-26 | the found row has the id and the user; none is found exactly when no row has both |
| InterviewRoutes.InterviewDb.constructor | backend/app/routes/interview.py:23 | an empty turn table over the session rows satisfies the table invariant |
| InterviewRoutes.InterviewDb.AddTurn | backend/app/routes/interview.py:63-64 | the new turn is appended with the next id |
| InterviewRoutes.InterviewDb.GenerateInterviewQuestion | backend/app/routes/interview.py:18-69 | with five main turns, "Interview completed" with total 5 and no change; otherwise one new main turn holding the model's answer to the interview prompt, numbered count + 1 in 1..5; the table invariant is kept |
| InterviewRoutes.InterviewDb.SubmitAnswer | backend/app/routes/interview.py:70-137 | no main turn gives "No main question found" and no change; otherwise the answer overwrites the latest main turn's answer and stays; then "Follow-up already asked", "Session not found", or one follow-up whose parent is that turn; the table invariant is kept |
| InterviewRoutes.InterviewDb.SubmitAnswerAsWritten | backend/app/routes/interview.py:76-103 | as written: with no main turn, "No main question found" and no change; otherwise the answer is stored on the latest main turn and the request ends in a server error, so it never replies with a follow-up or "Follow-up already asked" |
| InterviewRoutes.MainTurnKeepsValid | backend/app/routes/interview.py:36-64 | a main turn added below the limit keeps the table invariant, so no session ever exceeds five main turns |
| InterviewRoutes.SetAnswerKeepsValid | backend/app/routes/interview.py:91-92 | writing an answer keeps the table invariant |
| InterviewRoutes.FollowUpKeepsValid | backend/app/routes/interview.py:105-133 | a follow-up added to a main turn without one keeps the invariant, so every main turn has at most one follow-up |
| InterviewRoutes.FollowUpParents | backend/app/routes/interview.py:125-133 | the stored follow-up's parent is the latest main turn of its session, the only row with that id |
| InterviewRoutes.FollowUpUnique | backend/app/routes/interview.py:94-106 | a follow-up is stored only under a main turn that has none, so no two follow-ups share a parent |
| InterviewRoutes.HasFollowUpSetAnswer | backend/app/routes/interview.py:91-103 | writing the answer first does not change whether a follow-up exists |
| FeedbackRoute.CheckOrder | backend/app/routes/feedback.py:23-55 | a session the user does not own is 404 whatever its turns; an owned one with fewer than five main turns is 400; otherwise the owned row passes |
| FeedbackRoute.GenerateFeedback | backend/app/routes/feedback.py:17-97 | the route; FeedbackOutcomes states its answers |
| FeedbackRoute.CheckSession | backend/app/routes/feedback.py:23-55 | the two checks in order; CheckOrder states them |
| FeedbackRoute.QaPairsOf | backend/app/routes/feedback.py:31-63 | the selected pairs; QaPairsExact, QaPairsSplit, QaPairsAppend and QaPairsSingle state the selection |
| FeedbackRoute.JsonSpan | backend/app/routes/feedback.py:81 | the `{…}` span; JsonSpanSpec states it |
| FeedbackRoute.ReadFeedback | backend/app/routes/feedback.py:74-95 | the reading of the reply; ReadFeedbackCases states its three outcomes |
| FeedbackRoute.FeedbackOutcomes | backend/app/routes/feedback.py:17-97 | 404 exactly when the user owns no session with the id; 400 exactly when they own it and it has fewer than five main turns; otherwise the reply of the model to the evaluation prompt for the row's type over the answered main turns in table order, with limit 1500, read as JSON; every error is 404, 400 or 500 |
| FeedbackRoute.ReadFeedbackCases | backend/app/routes/feedback.py:74-95 | a reply that parses is the result; no span gives 500 "AI did not return valid JSON"; a span that fails gives 500 "AI response could not be parsed: " and the error |
| FeedbackRoute.JsonSpanSpec | backend/app/routes/feedback.py:81 | a span exists exactly when a `{` precedes a `}`, and it runs from the first `{` to the last `}` inclusive |
| FeedbackRoute.FirstIndexOf | backend/app/routes/feedback.py:81 | the found position holds the character |
| FeedbackRoute.FirstIndexIsFirst | backend/app/routes/feedback.py:81 | no earlier position holds it, and none is found exactly when it does not occur |
| FeedbackRoute.LastIndexOf | backend/app/routes/feedback.py:81 | the found position holds the character |
| FeedbackRoute.LastIndexIsLast | backend/app/routes/feedback.py:81 | no later position holds it, and none is found exactly when it does not occur |
| FeedbackRoute.QaPairsAppend | backend/app/routes/feedback.py:31-39 | pairs keep the turns' created_at order |
| FeedbackRoute.QaPairsSplit | backend/app/routes/feedback.py:31-63 | cutting the table anywhere, the pairs of the turns before the cut come before those after it |
| FeedbackRoute.QaPairsSingle | backend/app/routes/feedback.py:58-63 | a turn contributes its question and answer exactly when it is an answered main turn of the session |
| FeedbackRoute.QaPairsExact | backend/app/routes/feedback.py:31-63 | the pairs are exactly those of the answered main turns of the session, and there are at most as many as main turns |
| AuthRoutes.FindUser | backend/app/routes/auth.py:19 | the found user has the email; none is found exactly when no user has it |
| AuthRoutes.UserTable.constructor | backend/app/routes/auth.py:17 | an empty users table satisfies the table invariant |
| AuthRoutes.UserTable.Signup | backend/app/routes/auth.py:16-41 | a registered email gives 400 "Email already registered" and no change; otherwise exactly one user is added holding the hash of the password, returned without it; emails stay unique |
| AuthRoutes.SignupKeepsEmailsDistinct | backend/app/routes/auth.py:19-24 | adding an unregistered email keeps emails unique |
| AuthRoutes.LoginOutcomes | backend/app/routes/auth.py:44-71 | an unknown email and a wrong password give the same 401 "Invalid email or password"; success is a bearer token for `str(user.id)`, which reads back as the id |
| AuthRoutes.Login | backend/app/routes/auth.py:44-71 | the login route; LoginOutcomes and SignupThenLogin state its answers |
| AuthRoutes.SignupThenLogin | backend/app/routes/auth.py:16-71 | after signup, logging in with the same password finds the new user and gives its token |
| AuthRoutes.FindUserAppend | backend/app/routes/auth.py:19 | an appended unregistered user is found by its email |
| AuthStore.SessionStore.constructor | frontend/src/lib/auth.ts:3 | the store starts with the given window flag and items |
| AuthStore.SessionStore.SetToken | frontend/src/lib/auth.ts:2-6 | with a window, the token key is set and nothing else changes; without one, nothing changes |
| AuthStore.SessionStore.GetToken | frontend/src/lib/auth.ts:8-13 | a token is read exactly when there is a window and the key is stored |
| AuthStore.SessionStore.RemoveToken | frontend/src/lib/auth.ts:15-21 | with a window, the three keys are removed together and nothing else; without one, nothing changes |
| AuthStore.SessionStore.SetResumeId | frontend/src/lib/auth.ts:23-27 | with a window, the resume key holds the decimal id |
| AuthStore.SessionStore.GetResumeId | frontend/src/lib/auth.ts:29-35 | a value is read exactly when there is a window and a non-empty text is stored |
| AuthStore.SessionStore.SetSessionId | frontend/src/lib/auth.ts:37-41 | with a window, the session key holds the decimal id |
| AuthStore.SessionStore.GetSessionId | frontend/src/lib/auth.ts:43-49 | a value is read exactly when there is a window and a non-empty text is stored |
| AuthStore.SessionStore.IsAuthenticated | frontend/src/lib/auth.ts:51-53 | authenticated exactly when there is a window and a non-empty token is stored |
| AuthStore.IdRoundTrip | frontend/src/lib/auth.ts:23-49 | setting an id and reading it back gives the same number |
| AuthStore.SetterLocality | frontend/src/lib/auth.ts:2-49 | setting one key leaves the other two readings unchanged |
| AuthStore.ClearAll | frontend/src/lib/auth.ts:15-21 | after clearing, every getter reads nothing and nothing is authenticated, while other keys remain |
| AuthStore.TokenAuthenticates | frontend/src/lib/auth.ts:51-53 | storing a token authenticates exactly when it is not empty |
| AuthStore.StoreReadings | frontend/src/lib/auth.ts:3-12 | with a window the getters read the map; without one they read nothing and nothing is authenticated |
| AuthStore.Number | frontend/src/lib/auth.ts:29-49 | `Number(id)` for decimal integer texts; IdRoundTrip states that stored ids read back |
| AuthStore.ReadId | frontend/src/lib/auth.ts:29-49 | `id ? Number(id) : null` over the stored items; StoreReadings and IdRoundTrip state it |
| ErrorHandler.EntryMessages | frontend/src/lib/errorHandler.ts:35-41 | one message per validation entry, in order |
| ErrorHandler.GetErrorMessage | frontend/src/lib/errorHandler.ts:23-60 | the message; Precedence, NoResponseData, ValidationMessages and NonEmptyOutsideDetail state the order |
| ErrorHandler.EntryMessage | frontend/src/lib/errorHandler.ts:35-41 | one validation entry's text; ValidationMessages states its format |
| ErrorHandler.FieldName | frontend/src/lib/errorHandler.ts:37 | `loc[1]` when truthy, else "field"; ValidationMessages states it |
| ErrorHandler.Precedence | frontend/src/lib/errorHandler.ts:23-60 | string detail, then detail array, then `error`, then `message`, then string data; when the data offers none of these, the error's own truthy `message`, and otherwise "An error occurred. Please try again." |
| ErrorHandler.NoResponseData | frontend/src/lib/errorHandler.ts:54-59 | without response data, a truthy message is returned, else "An error occurred. Please try again." |
| ErrorHandler.ValidationMessages | frontend/src/lib/errorHandler.ts:34-42 | entries with `msg` become "<loc[1] or 'field'>: msg", others "Validation error", joined by "; " in order, and an empty array gives "" |
| ErrorHandler.NonEmptyOutsideDetail | frontend/src/lib/errorHandler.ts:44-59 | outside the detail branches the message is never empty |
| InterviewPage.LoadInitialOutcomes | frontend/src/app/interview/page.tsx:52-110 | the first question is requested exactly when the session id, the resume id and the type are present; the count becomes 1 or stays; a completed session shows the end message and moves to feedback |
| InterviewPage.SubmitSends | frontend/src/app/interview/page.tsx:112-186 | blank input is a no-op; otherwise the answer to the current question is posted first, the user's message stays, the input is cleared, loading ends, and an error adds nothing else |
| InterviewPage.SubmitReplies | frontend/src/app/interview/page.tsx:127-185 | a follow-up becomes the current question with the count kept; otherwise the next question does with the count one higher; a completion shows the end message and moves to feedback; a failure keeps the error text |
| InterviewPage.SubmitProgress | frontend/src/app/interview/page.tsx:136-179 | the count rises by at most one, and only after a second request whose question became current; a follow-up issues no question request; moving to feedback comes only with the end message |
| InterviewPage.SpeechErrorText | frontend/src/app/interview/page.tsx:228-232 | the error text is never empty: the truthy `error`, else the truthy `message`, else `JSON.stringify(ev)` when truthy, else "Speech recognition error" |
| InterviewPage.FinalTranscript | frontend/src/app/interview/page.tsx:214-222 | the loop collects the final transcripts from `resultIndex` on, each followed by a space |
| InterviewPage.CollectedAppend | frontend/src/app/interview/page.tsx:216-221 | collecting distributes over concatenation of results |
| InterviewPage.InterimIgnored | frontend/src/app/interview/page.tsx:218 | interim results contribute nothing |
| InterviewPage.CollectedBlank | frontend/src/app/interview/page.tsx:216-223 | the collected text is blank exactly when every final transcript is |
| InterviewPage.HeardInput | frontend/src/app/interview/page.tsx:214-226 | nothing spoken leaves the input; otherwise the trimmed text is appended with one separating space after a non-empty input |
| InterviewPage.FeedbackPathReadsBack | frontend/src/app/interview/page.tsx:157-168 | the feedback path carries the session id, which reads back |
| InterviewPage.InitialType | frontend/src/app/interview/page.tsx:24 | the query's type when truthy, else the stored type when truthy, else ""; the page constructor states it |
| InterviewPage.LoadInitial | frontend/src/app/interview/page.tsx:52-110 | the first-question step; LoadInitialOutcomes states it |
| InterviewPage.FirstReply | frontend/src/app/interview/page.tsx:76-106 | the state after the first question's reply; LoadInitialOutcomes states it |
| InterviewPage.Submit | frontend/src/app/interview/page.tsx:112-186 | the answer step; SubmitSends, SubmitReplies and SubmitProgress state it |
| InterviewPage.Answered | frontend/src/app/interview/page.tsx:127-185 | the step after the answer's reply; SubmitReplies states it |
| InterviewPage.Asked | frontend/src/app/interview/page.tsx:147-185 | the step after the next question's reply; SubmitReplies states it |
| InterviewPage.Pending | frontend/src/app/interview/page.tsx:217 | the results from `resultIndex` on; FinalTranscript states the loop over them |
| InterviewPage.Collected | frontend/src/app/interview/page.tsx:216-221 | the final transcripts, each with a space; CollectedAppend, InterimIgnored and CollectedBlank state it |
| InterviewPage.AppendSpoken | frontend/src/app/interview/page.tsx:223-224 | the input after dictation; HeardInput states it |
| InterviewPage.Heard | frontend/src/app/interview/page.tsx:214-226 | the state after a result event; HeardInput states it |
| InterviewPage.Recognition.constructor | frontend/src/app/interview/page.tsx:198-207 | a new recogniser is set to keep listening and is not yet running |
| InterviewPage.InterviewPage.constructor | frontend/src/app/interview/page.tsx:21-41 | the type comes from the query, else `sessionStorage`, else ""; the chat starts empty |
| InterviewPage.InterviewPage.LoadInitialQuestion | frontend/src/app/interview/page.tsx:52-110 | the page's state and requests are those of `LoadInitial` |
| InterviewPage.InterviewPage.OnFirstQuestionReply | frontend/src/app/interview/page.tsx:76-106 | the page's state is that of `FirstReply` |
| InterviewPage.InterviewPage.HandleSubmitAnswer | frontend/src/app/interview/page.tsx:112-186 | the page's state and requests are those of `Submit` |
| InterviewPage.InterviewPage.OnAnswerReply | frontend/src/app/interview/page.tsx:127-185 | the page's state and requests are those of `Answered` |
| InterviewPage.InterviewPage.OnQuestionReply | frontend/src/app/interview/page.tsx:147-185 | the page's state is that of `Asked` |
| InterviewPage.InterviewPage.OnResult | frontend/src/app/interview/page.tsx:214-226 | the page's state is that of `Heard` |
| InterviewPage.InterviewPage.OnStart | frontend/src/app/interview/page.tsx:209-212 | the recogniser runs and the page shows it listening |
| InterviewPage.InterviewPage.OnEnd | frontend/src/app/interview/page.tsx:234-246 | it restarts exactly when `keepListening` is set; otherwise the page stops showing it listening |
| InterviewPage.InterviewPage.OnError | frontend/src/app/interview/page.tsx:228-232 | the error text is set and nothing else changes |
| InterviewPage.InterviewPage.StartListening | frontend/src/app/interview/page.tsx:189-259 | it starts exactly with a window, support and no exception; unsupported browsers get the error text |
| InterviewPage.InterviewPage.StopListening | frontend/src/app/interview/page.tsx:262-271 | `keepListening` is cleared before stopping and the page stops listening |
| FeedbackPage.TierOf | frontend/src/app/feedback/page.tsx:102-112 | the three bands are score ≥ 8, 6 ≤ score < 8 and score < 6 |
| FeedbackPage.ScoreStyling | frontend/src/app/feedback/page.tsx:102-112 | ≥ 8 is green with the star, 6 to 8 yellow with the thumbs-up, below 6 red with the uptrend |
| FeedbackPage.ScoreColor | frontend/src/app/feedback/page.tsx:102-106 | the colour of a score; ScoreStyling and ColourAndBadgeAgree state it |
| FeedbackPage.ScoreBadge | frontend/src/app/feedback/page.tsx:108-112 | the badge of a score; ScoreStyling and ColourAndBadgeAgree state it |
| FeedbackPage.ColourAndBadgeAgree | frontend/src/app/feedback/page.tsx:102-112 | two scores share the colour exactly when they share the badge, and exactly when they share the band |
| FeedbackPage.TierMonotone | frontend/src/app/feedback/page.tsx:102-112 | a higher score never gets a lower band |
| FeedbackPage.ViewOf | frontend/src/app/feedback/page.tsx:53-100 | loading first, then the error, then no feedback, and only then the report with the score's colour and badge |
| FeedbackPage.FeedbackPage.constructor | frontend/src/app/feedback/page.tsx:22-27 | the page starts loading, without feedback or error |
| FeedbackPage.FeedbackPage.FetchFeedback | frontend/src/app/feedback/page.tsx:29-51 | no session id goes to the dashboard with no request; otherwise one request, then the feedback or the error text, and loading ends |
| ResumeUpload.FileRules | frontend/src/app/resume-upload/page.tsx:19-33 | a file is accepted exactly when it is a PDF of at most 10 MiB; the type is checked first; 10485760 bytes pass and 10485761 do not |
| ResumeUpload.FileProblem | frontend/src/app/resume-upload/page.tsx:19-33 | why a file is refused, if it is; FileRules states it |
| ResumeUpload.ResumeUploadPage.constructor | frontend/src/app/resume-upload/page.tsx:13-16 | the page starts without a file, error or progress |
| ResumeUpload.ResumeUploadPage.HandleFileChange | frontend/src/app/resume-upload/page.tsx:19-33 | no file changes nothing; a refused file sets the reason and keeps the previous file; an accepted one replaces it and clears the error |
| ResumeUpload.ResumeUploadPage.HandleUpload | frontend/src/app/resume-upload/page.tsx:35-69 | no file gives "Please select a file" and no request; success stores the resume id and moves to setup; failure keeps the error; loading and progress are reset |
| SignupForm.PasswordRules | frontend/src/components/SignupForm.tsx:24-32 | the form is sent exactly when the passwords match and are at least 6 UTF-16 units long; a mismatch wins over the length |
| SignupForm.PasswordProblem | frontend/src/components/SignupForm.tsx:24-32 | why the form is refused, if it is; PasswordRules states it |
| SignupForm.SignupFormState.constructor | frontend/src/components/SignupForm.tsx:12-18 | the form starts with the typed fields, no error and no navigation |
| SignupForm.SignupFormState.HandleSignup | frontend/src/components/SignupForm.tsx:20-61 | the error is cleared first; a refused password sets its message and sends nothing; otherwise sign-up, login with the email as user name, token stored, then the dashboard; a failure keeps its error |
| InterviewSetup.InterviewPathReadsBack | frontend/src/app/interview-setup/page.tsx:65 | the interview path carries the session id, which reads back, and then the type |
| InterviewSetup.InterviewPath | frontend/src/app/interview-setup/page.tsx:65 | the interview address; InterviewPathReadsBack states that both parameters read back |
| InterviewSetup.TabStorage.constructor | frontend/src/app/interview-setup/page.tsx:62 | `sessionStorage` starts with the given items |
| InterviewSetup.InterviewSetupPage.constructor | frontend/src/app/interview-setup/page.tsx:15-20 | the page starts without a type, error or navigation |
| InterviewSetup.InterviewSetupPage.SelectType | frontend/src/app/interview-setup/page.tsx:122 | clicking a card selects its type and changes nothing else |
| InterviewSetup.InterviewSetupPage.HandleStartInterview | frontend/src/app/interview-setup/page.tsx:46-71 | without a type or a resume id, "Please select an interview type" and no request; success stores the type and the session id and moves to the interview with both in the query |

## Left out

- Vector search (backend/app/utils/vector_search.py) is not part of this model. Nor are embeddings or the PDF extraction and file handling of backend/app/routes/resume.py. The route is given the resume chunks the search returns.
- `generate_with_groq` is an uninterpreted function from prompt and token limit to reply. Whatever it does to its reply, including its own strip, is part of that function.
- `json.loads`, password hashing, password checking and JWT creation are function parameters; their behaviour is not modelled.
- The `print` of the raw model reply in the feedback route is not modelled.
- The database is a sequence of rows. There is no SQL, no transaction and no foreign-key enforcement, and `db.refresh` is the returned row.
- `created_at` order is taken to be insertion order, so ties between equal timestamps are not modelled.
- The turn table's `parent_turn_id` column is missing from the source (see Findings). The model gives turns the field `parent`, and `SubmitAnswer` describes the route as intended.
- The question and answer routes take `current_user` but do not check that the session belongs to that user. The model does not check ownership either.
- Pydantic validation, including `EmailStr` normalisation, is not modelled: emails are compared as given.
- backend/app/routes/interview_session.py, search.py, main.py and the `/auth/me` route are wiring and are left out.
- Regular-expression `\d` is taken as the ASCII digits, and `.lower()` as ASCII lower-casing. Non-ASCII decimal digits and non-ASCII case mappings are not modelled.
- AuthStore.SessionStore.GetResumeId: `Number(text)` of a stored text is interpreted only for an optional "-" followed by ASCII digits. Any other text is left uninterpreted (`NotInteger`), although JavaScript reads some of those texts as integers (`" 12"`, `"+5"`, `"1e3"`, `"0x10"`, `"5.0"`). NaN, floating-point values, integers beyond 2^53 and the exponent form `String(n)` gives from 1e21 on are not modelled. Ids are stored as integers, so what the page stores always reads back.
- The session id read from the interview and feedback pages' query strings is an integer here. A missing id is `Number(null)`, which is 0. An unparsable one is NaN, which is falsy like 0 and is taken as 0. Fractional values are not modelled.
- ErrorHandler.FieldName: `loc` entries that are numbers and `error`/`message` fields that are not strings are not modelled; every field is a string or absent.
- ResumeUpload.ResumeUploadPage.HandleUpload: `onUploadProgress` and its percentages are not modelled. Progress is reset to 0 at the end as in the source.
- Speech synthesis, scrolling, timers are not modelled; the 3-second delay before moving to the feedback page is an immediate navigation in the model. Progress bars, message ids and timestamps are not modelled either.
- Concurrency is not modelled: each page handler, recogniser event and backend request is one sequential step. Interleavings of asynchronous handlers and React effect re-runs are left out. So are simultaneous backend requests: two concurrent `/interview/question` calls can both read a count of 4 (backend/app/routes/interview.py:27-64) and give a session six main turns, which `TableValid` rules out only for sequential calls.
- The login page, dashboard, navigation bar, protected route, error boundary, buttons and the API client's interceptors are presentation or one-line delegations and are left out.
- Floating-point scores are real numbers, so rounding of the score is not modelled.

## Findings

| source | as written | input that shows it | evidently intended | confidence | as-written member | corrected member |
|---|---|---|---|---|---|---|
| backend/app/routes/interview.py:100 | the follow-up lookup filters on `InterviewTurn.parent_turn_id`, which backend/app/models/interview_turn.py:5-16 does not declare, so it raises after the answer is committed at :92; the creation at :129 would fail the same way | any session with a main turn: the answer is saved, the request ends in a 500, and no follow-up is ever asked | look up the main turn's follow-up, then reply "Follow-up already asked" or store and return one follow-up | not executed | InterviewRoutes.InterviewDb.SubmitAnswerAsWritten | InterviewRoutes.InterviewDb.SubmitAnswer |
| backend/app/utils/text_chunker.py:19-25 | `start` advances by `chunk_size - overlap`, which nothing checks to be positive | `chunk_text("a", 100, 100)`: `start` stays 0, so the loop never ends | on a non-empty text, only chunk sizes larger than the overlap are accepted, as the defaults 1000/100 are; the loop then ends after ceil(len / (chunk_size − overlap)) iterations | not executed | TextChunker.ChunkLoopStalls | TextChunker.ChunkText |
