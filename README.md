# StackIt: a verified model of its vote ledger, validators, guards and client state

StackIt is a question-and-answer site. It has an Express/Prisma backend and a React client. This project models the parts of both that make decisions, as Dafny 4.11 modules, one per source file:

- **Vote ledger** (`VoteLedger`, `QuestionModel`, `AnswerModel`):
  - each vote table is a `map<(userId, targetId), VoteType>`;
  - voting upserts one entry and counts that target's UP and DOWN entries;
  - `QuestionStore` and `AnswerStore` are classes whose methods update the question, tag, question-tag, answer and vote tables in place.
- **Request validators** (`Validation`, `QuestionValidation`): express-validator chains and the hand-written pagination, search, vote and content-length guards, as functions from request fields to `Next` or a list of error details.
- **Access guards** (`Auth`):
  - `Bearer ` header stripping;
  - the 401/403/404/500 decisions of `authenticate`, `optionalAuth`, `authorize` and `authorizeOwner`.

  Token verification and the database lookups are function parameters.
- **Question controller** (`QuestionController`): comma-separated tag parsing, page/limit defaults and the mapping of model results to HTTP statuses.
- **AI reply handling** (`AiService`): input checks, the trimming of replies, tag-reply parsing (split, trim, drop empties, keep 15), `validateAIResponse` and `checkAIRateLimit`. The Gemini call is a function parameter.
- **Client auth state** (`UserContext`): `userReducer` as a function, a dispatch sequence as a fold over actions, and the action sequences that `checkAuth`, `login`, `register` and `logout` dispatch.
- **Client pages** (`AskQuestion`, `QuestionDetail`, `Register`, `Login`, with `FormState`): classes whose fields are the page's React state and whose methods are the handlers.
- **Shared string and list helpers** (`Text`): trimming, split/join, ASCII lower-casing, substring search, and the `split → trim → filter` pipeline used by the controller and the AI service.
- **Discrepancies** (`Findings`): three places where client and server disagree. Each has an as-written model and a corrected one; see "## Findings".

Conventions:

- Ids and strings are `seq<char>`.
- A JSON body field that may be missing is an `Option`.
- `parseInt`/`Number` results are `Option<int>`.
- Every operation is one sequential step.

## Model

| member | source | states |
|---|---|---|
| VoteLedger.Upsert | backend/src/models/questionModel.js:198-211 | after an upsert the (user, target) key holds the new vote type, the key set gains only that key, and every other entry is unchanged |
| VoteLedger.UpPlusDownIsVoters | backend/src/models/questionModel.js:213-218 | the UP count plus the DOWN count of a target equals the number of distinct users with a vote on it |
| VoteLedger.UpsertOtherTarget | backend/src/models/answerModel.js:119-124 | a vote on one target leaves every other target's UP and DOWN counts unchanged |
| VoteLedger.UpsertIdempotent | backend/src/models/questionModel.js:198-211 | casting the same vote twice leaves the table as one cast does |
| VoteLedger.UpsertRows | backend/src/models/questionModel.js:198-218 | after an upsert a target's rows of one direction agree with the old ones except on the voter's key, which is among them iff the new vote has that direction |
| VoteLedger.UpsertCounts | backend/src/models/questionModel.js:198-218 | each count after an upsert is the old count, minus one if the voter's old vote had that direction, plus one if the new vote has it |
| VoteLedger.FlipUpToDown | backend/src/models/questionModel.js:205-218 | switching a user's UP to DOWN lowers upvotes by one and raises downvotes by one |
| VoteLedger.FirstVote | backend/src/models/questionModel.js:198-218 | a user's first vote on a target raises that direction's count by one and the number of distinct voters by one |
| QuestionModel.Pages | backend/src/models/questionModel.js:94 | pages is the ceiling of total/limit: pages·limit covers total and one page fewer does not |
| QuestionModel.PageOf | backend/src/models/questionModel.js:55-77 | a page holds at most limit rows; they are the rows from skip = (page−1)·limit on, in order, and the page is full unless it reaches the end |
| QuestionModel.GetAllQuestions | backend/src/models/questionModel.js:54-97 | the questions are the page PageOf cuts from skip = (page−1)·limit, at most limit of them, with pagination {page, limit, total, pages = ⌈total/limit⌉}; every page up to pages is non-empty |
| QuestionModel.RowOnPage | backend/src/models/questionModel.js:55-94 | row i appears on page ⌊i/limit⌋+1, which lies in 1..pages, at position i − skip of that page |
| QuestionModel.QuestionStore.constructor | backend/src/models/questionModel.js:14-43 | an empty store satisfies the table invariant |
| QuestionModel.QuestionStore.UpsertTags | backend/src/models/questionModel.js:16-26 | find-or-create: the tag table becomes the old tags plus the given names, and nothing else changes |
| QuestionModel.QuestionStore.CreateQuestion | backend/src/models/questionModel.js:14-43 | the question is stored under its id, every tag name exists, and the question is linked to exactly the given names; votes are unchanged |
| QuestionModel.QuestionStore.UpdateQuestion | backend/src/models/questionModel.js:122-160 | an unknown id gives null and no change. Otherwise title and description change only when given non-empty. Given tags replace the question's tag links exactly, and other questions' links are kept |
| QuestionModel.QuestionStore.DeleteQuestion | backend/src/models/questionModel.js:167-182 | an unknown id gives null and no change; otherwise the question, its tag links and its votes are removed, and the tag table is kept |
| QuestionModel.QuestionStore.VoteQuestion | backend/src/models/questionModel.js:191-225 | an unknown question gives "Question not found" with the vote table unchanged. Otherwise the table is the upsert of (user, question). The result echoes the question id and vote type, counts that question's UP and DOWN rows, and up + down equals its distinct voters |
| QuestionModel.RepeatVote | backend/src/models/questionModel.js:198-218 | voting the same way twice returns identical results |
| QuestionModel.SwitchVote | backend/src/models/questionModel.js:205-218 | an UP then a DOWN by the same user: downvotes rises by one and upvotes falls by one |
| AnswerModel.Find | backend/src/models/answerModel.js:88-90 | the found position holds the answer with that id; none is found exactly when no answer has the id |
| AnswerModel.AnswersOf | backend/src/models/answerModel.js:33-43 | the result holds exactly the table's answers to that question |
| AnswerModel.AnswersOfOldestFirst | backend/src/models/answerModel.js:34-36 | selecting one question's answers keeps them oldest first |
| AnswerModel.RemoveAtKeepsOrder | backend/src/models/answerModel.js:70-81 | removing one answer keeps the rest in creation order with distinct ids, and removes exactly that id |
| AnswerModel.AnswerStore.constructor | backend/src/models/answerModel.js:13-26 | an empty store satisfies the table invariant |
| AnswerModel.AnswerStore.CreateAnswer | backend/src/models/answerModel.js:13-26 | the new answer is appended with the current time, and the table stays oldest first with distinct ids |
| AnswerModel.AnswerStore.GetAnswersByQuestionId | backend/src/models/answerModel.js:33-43 | exactly that question's answers, oldest first |
| AnswerModel.AnswerStore.UpdateAnswer | backend/src/models/answerModel.js:51-63 | an unknown id gives null and no change; otherwise only that answer's content changes, and the updated answer is returned |
| AnswerModel.AnswerStore.DeleteAnswer | backend/src/models/answerModel.js:70-81 | an unknown id gives null and no change; otherwise that answer and its votes are removed and the others keep their order |
| AnswerModel.AnswerStore.VoteAnswer | backend/src/models/answerModel.js:99-131 | an unknown answer gives "Answer not found" with no write. Otherwise the (user, answer) entry is upserted. The result echoes the id and vote type, counts only that answer's rows, and up + down equals its distinct voters |
| Validation.ToDetail | backend/src/middleware/validation.js:13-17 | each error becomes {field: path, message: msg, value} |
| Validation.Validate | backend/src/middleware/validation.js:8-22 | passes iff there are no errors; otherwise the details map the errors one for one, in order |
| Validation.ValidatePagination | backend/src/middleware/validation.js:27-56 | page defaults to 1 and limit to 10. A non-numeric page or one below 1 is rejected first; then a limit outside 1..100 is rejected. On success the result is {page, limit, skip = (page−1)·limit} |
| Validation.ValidateSearch | backend/src/middleware/validation.js:61-103 | passes iff q ≤ 200 chars, tags use only letters, digits, commas and whitespace, sort is one of five options and filter one of four. Only the first failing check, in that order, is reported |
| Validation.ValidateVote | backend/src/middleware/validation.js:108-120 | passes iff voteType is exactly "UP" or "DOWN"; otherwise one voteType error |
| Validation.CheckedText | backend/src/middleware/validation.js:128 | content is checked when truthy, otherwise description |
| Validation.Excerpt | backend/src/middleware/validation.js:134 | the reported value is the first 100 characters followed by "..." |
| Validation.ValidateContentLength | backend/src/middleware/validation.js:125-140 | rejects iff the checked text is truthy and longer than maxLength, 10000 when the argument is left out; the one error is on content when content is truthy, otherwise on description, and carries the "max N characters" message and the excerpt |
| QuestionValidation.AsString | backend/src/middleware/questionValidation.js:4-10 | a missing body field reads as the empty string |
| QuestionValidation.SanitizedTitle | backend/src/middleware/questionValidation.js:4-5 | the sanitized title is trimmed and no longer than the original |
| QuestionValidation.TitleErrors | backend/src/middleware/questionValidation.js:4-7 | no error iff the trimmed title has 10..150 characters; otherwise one title error carrying the trimmed value |
| QuestionValidation.DescriptionErrors | backend/src/middleware/questionValidation.js:8-10 | no error iff the description has at least 20 characters |
| QuestionValidation.TagsErrors | backend/src/middleware/questionValidation.js:11-20 | no error iff tags is a non-empty array of non-empty strings. A non-array or empty array gets both messages; an array with a bad element gets only the second |
| QuestionValidation.CreateErrors | backend/src/middleware/questionValidation.js:3-21 | no errors iff title, description and tags all pass; at most four errors |
| QuestionValidation.UpdateErrors | backend/src/middleware/questionValidation.js:23-44 | every field is optional, and a present field obeys the create bounds; with all fields present it equals the create rules, with none it passes |
| QuestionValidation.Sanitized | backend/src/middleware/questionValidation.js:4-26 | only the title is rewritten (trimmed); on update a missing title stays missing |
| QuestionValidation.ValidateCreateQuestion | backend/src/middleware/questionValidation.js:3-21 | passes iff all three rules pass, handing on the sanitized body; otherwise detail i is the field, message and value of rule error i, in rule order |
| QuestionValidation.ValidateUpdateQuestion | backend/src/middleware/questionValidation.js:23-44 | passes iff the update rules report nothing, handing on the sanitized body; otherwise detail i is the field, message and value of rule error i, in rule order |
| QuestionValidation.CreateAcceptedUpdateAccepted | backend/src/middleware/questionValidation.js:3-44 | a body the create rules accept is accepted by the update rules with the same result |
| QuestionValidation.VoteErrors | backend/src/middleware/questionValidation.js:46-52 | no error iff voteType is "UP" or "DOWN"; a missing one gets both messages, a wrong one only the second |
| QuestionValidation.ValidateVoteQuestion | backend/src/middleware/questionValidation.js:46-52 | passes iff voteType is "UP" or "DOWN"; a missing type gets the required and the allowed-values details, in that order, a wrong one only the allowed-values detail carrying its value |
| QuestionValidation.VoteRulesAgree | backend/src/middleware/questionValidation.js:46-52 | the rule chain and the hand-written validateVote accept exactly the same inputs |
| Auth.BearerToken | backend/src/middleware/auth.js:13-23 | a token exists iff the header starts with "Bearer " and has more after it; the header is the prefix followed by the token |
| Auth.BearerOfToken | backend/src/middleware/auth.js:19 | stripping the prefix from "Bearer " + token gives the token back |
| Auth.ThrownRefusal | backend/src/middleware/auth.js:46-54 | JsonWebTokenError → 401 "Invalid token.", TokenExpiredError → 401 "Token expired.", anything else → 500 |
| Auth.Authenticate | backend/src/middleware/auth.js:11-55 | a missing or malformed header gives 401 before verification. Success happens iff the token verifies and the user exists, and yields that user. Every failure is 401 or 500 |
| Auth.OptionalAuth | backend/src/middleware/auth.js:61-97 | never rejects: no usable header gives no user |
| Auth.OptionalAuthAgrees | backend/src/middleware/auth.js:11-97 | optionalAuth yields a user exactly when authenticate would admit one, and the same user |
| Auth.Authorize | backend/src/middleware/auth.js:103-115 | no user → 401; passes iff there is a user and roles is empty or holds the user's role; otherwise 403 |
| Auth.AuthorizeEmptyRoles | backend/src/middleware/auth.js:109 | an empty roles list admits every authenticated user |
| Auth.AuthorizeOwner | backend/src/middleware/auth.js:122-144 | no user → 401 before the lookup, a failed lookup → 500, a null owner → 404. Passes iff the user owns the resource or is ADMIN, otherwise 403 |
| Auth.AdminModifiesAll | backend/src/middleware/auth.js:135 | an ADMIN passes the owner check for any resource that has an owner |
| QuestionController.ParseTags | backend/src/controllers/questionController.js:31-38 | absent tags give []; an array passes through unchanged; a string goes through split on ',', trim and drop-empty |
| QuestionController.ParseTagsMembers | backend/src/controllers/questionController.js:33-37 | a name is in the parsed list iff it is non-empty and is the trimmed form of some comma-separated piece |
| QuestionController.ParsedTagsClean | backend/src/controllers/questionController.js:33-37 | every parsed tag is non-empty, trimmed and comma-free |
| QuestionController.PageArgs | backend/src/controllers/questionController.js:30-43 | page defaults to 1 and limit to 10; given values are converted numbers |
| QuestionController.CreateResponse | backend/src/controllers/questionController.js:8-23 | success → 201, any failure → 500 "Failed to create question" |
| QuestionController.NullableResponse | backend/src/controllers/questionController.js:55-106 | a found result → 200, a null result → 404 "Question not found", a thrown error → 500 |
| QuestionController.VoteResponse | backend/src/controllers/questionController.js:111-125 | success → 200, "Question not found" → 404, any other error → 500 |
| QuestionController.VoteTypeOf | backend/src/controllers/questionController.js:113 | the validated wire string "UP" maps to Up and "DOWN" to Down |
| QuestionController.GetQuestionById | backend/src/controllers/questionController.js:55-67 | 200 with the stored question iff the id exists, otherwise 404 |
| QuestionController.VoteQuestion | backend/src/controllers/questionController.js:111-125 | 404 and no write for an unknown question; otherwise 200, with the vote upserted |
| QuestionController.UpdateQuestion | backend/src/controllers/questionController.js:72-89 | 404 with no change for an unknown id, otherwise 200 with the model's update applied |
| QuestionController.DeleteQuestion | backend/src/controllers/questionController.js:94-106 | 404 with no change for an unknown id, otherwise 200; the id is gone afterwards |
| QuestionController.CreateQuestion | backend/src/controllers/questionController.js:8-23 | 201 with the question stored under its id |
| AiService.TrimmedReply | backend/src/services/aiService.js:37-41 | a whitespace-only reply is an error; otherwise the reply is returned trimmed and non-empty |
| AiService.GenerateAIAnswer | backend/src/services/aiService.js:16-46 | a non-string or empty question is rejected before the model call; success iff the model answers with a non-blank reply, which is returned trimmed |
| AiService.Take | backend/src/services/aiService.js:84 | slice(0, n) keeps the first min(n, length) elements |
| AiService.ParseTagReply | backend/src/services/aiService.js:74-88 | a blank reply is an error. The tags are the first at most 15 trimmed non-empty comma-separated pieces. It fails iff no such piece exists |
| AiService.GenerateTags | backend/src/services/aiService.js:53-95 | bad input is rejected before the model call; success iff the model answers and its reply parses, giving the parsed tags |
| AiService.TagReplyRoundTrip | backend/src/services/aiService.js:79-84 | a reply that joins 1..15 clean tag names with commas parses back to exactly those names |
| AiService.TagReplyCapped | backend/src/services/aiService.js:79-84 | a reply that joins more than 15 clean names parses to the first 15 |
| AiService.ContentType | backend/src/services/aiService.js:103 | contentType defaults to "question" |
| AiService.SummarizeContent | backend/src/services/aiService.js:103-137 | bad content is rejected first, then a content type other than question/answer; a success is the trimmed non-blank reply |
| AiService.ValidateAIResponse | backend/src/services/aiService.js:144-158 | true iff the input is a string of length 10..10000 |
| AiService.CheckAIRateLimit | backend/src/services/aiService.js:165-176 | always allows |
| UserContext.Reduce | frontend/src/context/UserContext.jsx:13-42 | SET_LOADING changes only isLoading. SET_USER sets the user, sets isAuthenticated iff the payload is non-null, and clears loading and error. SET_ERROR sets the error and clears loading. LOGOUT resets everything. An unknown action changes nothing. Every action keeps isAuthenticated ⇔ user ≠ null |
| UserContext.InitialConsistent | frontend/src/context/UserContext.jsx:6-11 | the initial state has no user, is not authenticated, is loading, has no error, and satisfies the invariant |
| UserContext.RunKeepsConsistent | frontend/src/context/UserContext.jsx:6-42 | any sequence of dispatches keeps isAuthenticated ⇔ user ≠ null |
| UserContext.RunAppend | frontend/src/context/UserContext.jsx:13-42 | dispatching two sequences one after the other equals dispatching their concatenation |
| UserContext.DisplayName | frontend/src/context/UserContext.jsx:57 | "firstName lastName" when both are non-empty, otherwise the email |
| UserContext.Named | frontend/src/context/UserContext.jsx:57-58 | the stored user keeps its fields and gains the display name |
| UserContext.SignInActions | frontend/src/context/UserContext.jsx:75-119 | login and register dispatch SET_LOADING true, then one outcome action |
| UserContext.SignInSucceeds | frontend/src/context/UserContext.jsx:75-96 | a successful sign-in ends authenticated with the named user, not loading and with no error |
| UserContext.SignInFails | frontend/src/context/UserContext.jsx:86-95 | a failed sign-in keeps the user and authentication, stops loading, and shows the server message or the default one |
| UserContext.LogoutSignsOut | frontend/src/context/UserContext.jsx:121-131 | logout leaves no user, not authenticated, not loading, no error |
| UserContext.CheckAuthActions | frontend/src/context/UserContext.jsx:48-73 | without a token checkAuth only stops loading |
| UserContext.CheckAuthSettles | frontend/src/context/UserContext.jsx:48-73 | after checkAuth the state is consistent and no longer loading; it is authenticated only with a token and a returned user |
| FormState.ClearError | src/pages/AskQuestionPage.jsx:79-84 | the named field's error is blanked, the other errors and the key set are kept, and a field without an error changes nothing |
| FormState.Put | src/pages/RegisterPage.jsx:41-74 | a field's message is recorded only when there is one |
| FormState.NoErrors | src/pages/RegisterPage.jsx:73 | "no keys in the error object" holds exactly of the empty map |
| FormState.EmailLikeShape | src/pages/RegisterPage.jsx:57 | a string matching \S+@\S+\.\S+ contains '@' and '.' and has at least 5 characters |
| FormState.EmailLikeInContext | src/pages/RegisterPage.jsx:57 | the pattern is unanchored: any text around a match still matches |
| AskQuestion.Normalize | src/pages/AskQuestionPage.jsx:92 | a normalized tag is trimmed |
| AskQuestion.AddedTags | src/pages/AskQuestionPage.jsx:91-98 | only a non-empty normalized tag not already present is appended; the list keeps its prefix and stays duplicate-free |
| AskQuestion.AddTagIdempotent | src/pages/AskQuestionPage.jsx:91-98 | adding the same tag twice equals adding it once |
| AskQuestion.Without | src/pages/AskQuestionPage.jsx:100-102 | removing a tag keeps exactly the other tags, and a tag that is absent changes nothing |
| AskQuestion.WithoutAt | src/pages/AskQuestionPage.jsx:100-102 | in a duplicate-free list, removing a tag deletes exactly its position and keeps the order of the rest |
| AskQuestion.WithoutNoDup | src/pages/AskQuestionPage.jsx:100-102 | removal keeps the list duplicate-free |
| AskQuestion.RemoveAfterAdd | src/pages/AskQuestionPage.jsx:91-102 | removing a freshly added tag restores the list |
| AskQuestion.Missing | src/pages/AskQuestionPage.jsx:117-120 | the suggestions not yet selected, with no duplicates |
| AskQuestion.AppendMissingNoDup | src/pages/AskQuestionPage.jsx:117-120 | appending unselected suggestions keeps the list duplicate-free |
| AskQuestion.ToggledTags | src/pages/AskQuestionPage.jsx:306-312 | a selected AI tag is removed and an unselected one appended; other tags are unaffected |
| AskQuestion.ToggleTwice | src/pages/AskQuestionPage.jsx:306-312 | toggling an unselected tag twice restores the list |
| AskQuestion.TitleError | src/pages/AskQuestionPage.jsx:51-56 | no error iff the title is not blank and has at least 10 characters |
| AskQuestion.ContentError | src/pages/AskQuestionPage.jsx:57-62 | no error iff the content is not blank and has at least 20 characters |
| AskQuestion.TagsError | src/pages/AskQuestionPage.jsx:63-65 | no error iff at least one tag is selected |
| AskQuestion.ErrorMap | src/pages/AskQuestionPage.jsx:48-67 | exactly the fields with a message get an entry |
| AskQuestion.FormErrors | src/pages/AskQuestionPage.jsx:48-67 | each field has an entry iff its rule fails |
| AskQuestion.FormValid | src/pages/AskQuestionPage.jsx:48-69 | the form is valid iff the title, content and tag rules all pass |
| AskQuestion.AskQuestionPage.constructor | src/pages/AskQuestionPage.jsx:27-46 | empty title, content, tag input, tags, errors and suggestions |
| AskQuestion.AskQuestionPage.HandleInputChange | src/pages/AskQuestionPage.jsx:71-85 | only the named field changes, and only its error is cleared |
| AskQuestion.AskQuestionPage.HandleTagInputChange | src/pages/AskQuestionPage.jsx:87-89 | the tag input takes the new value |
| AskQuestion.AskQuestionPage.AddTag | src/pages/AskQuestionPage.jsx:91-98 | an accepted tag is appended and clears the input and the tags error; a rejected one changes nothing |
| AskQuestion.AskQuestionPage.RemoveTag | src/pages/AskQuestionPage.jsx:100-102 | the tag is dropped and the others keep their order |
| AskQuestion.AskQuestionPage.GenerateTags | src/pages/AskQuestionPage.jsx:112-130 | the ten fixed suggestions are shown, and those of the first three not yet selected are appended |
| AskQuestion.AskQuestionPage.ToggleAiTag | src/pages/AskQuestionPage.jsx:306-312 | clicking a suggestion toggles it |
| AskQuestion.AskQuestionPage.ValidateForm | src/pages/AskQuestionPage.jsx:48-69 | the error state becomes the rule errors, and the result is true iff there are none |
| AskQuestion.AskQuestionPage.Submit | src/pages/AskQuestionPage.jsx:132-146 | a payload is produced iff validation passes; it holds the trimmed title and content and the current tags |
| QuestionDetail.Delta | frontend/src/pages/QuestionDetailPage.jsx:141-147 | +1 for 'up', −1 for anything else |
| QuestionDetail.VoteAnswers | frontend/src/pages/QuestionDetailPage.jsx:145-149 | only answers with the matching id change, and only their vote count |
| QuestionDetail.VoteAnswersUndo | frontend/src/pages/QuestionDetailPage.jsx:145-149 | applying the opposite delta undoes an answer vote |
| QuestionDetail.AcceptOnly | frontend/src/pages/QuestionDetailPage.jsx:165-168 | each answer is accepted iff its id is the accepted one; nothing else changes |
| QuestionDetail.AcceptOnlyOne | frontend/src/pages/QuestionDetailPage.jsx:165-168 | with distinct ids, at most one answer is accepted, and one is accepted iff some answer has the named id |
| QuestionDetail.AcceptOnlyIdempotent | frontend/src/pages/QuestionDetailPage.jsx:165-168 | accepting the same answer again changes nothing |
| QuestionDetail.AiAnswer | frontend/src/pages/QuestionDetailPage.jsx:256-266 | the AI answer is marked AI, has 0 votes, is not accepted, and its id is "ai-" followed by the timestamp |
| QuestionDetail.WireVoteType | frontend/src/pages/QuestionDetailPage.jsx:287-299 | the corrected client sends "UP" for 'up' and "DOWN" otherwise |
| QuestionDetail.QuestionDetailPage.constructor | frontend/src/pages/QuestionDetailPage.jsx:71-120 | the page shows the loaded question and answers with an empty answer box |
| QuestionDetail.QuestionDetailPage.HandleVote | frontend/src/pages/QuestionDetailPage.jsx:124-160 | unauthenticated: no call and no change. The lowercase kind is sent otherwise. After a successful call the question's count moves by ±1, or only the matching answers move. A failed call changes nothing |
| QuestionDetail.QuestionDetailPage.HandleQuestionVoteSynced | frontend/src/pages/QuestionDetailPage.jsx:124-142 | corrected question vote: sends the upper-case vote type and shows the server's up − down |
| QuestionDetail.QuestionDetailPage.HandleAcceptAnswer | frontend/src/pages/QuestionDetailPage.jsx:162-185 | on success exactly the answers with that id are accepted; on failure nothing changes |
| QuestionDetail.QuestionDetailPage.HandleSubmitAnswer | frontend/src/pages/QuestionDetailPage.jsx:187-239 | a blank answer is not posted. On success the new answer is prepended with 0 votes, not accepted, and the box is cleared. On failure nothing changes |
| QuestionDetail.QuestionDetailPage.GenerateAIAnswer | frontend/src/pages/QuestionDetailPage.jsx:241-278 | a non-owner gets no change; an owner gets exactly one AI answer prepended |
| Register.NameError | src/pages/RegisterPage.jsx:43-53 | no error iff the first (or last) name has at least 2 characters; an empty one is "required" |
| Register.ConfirmError | src/pages/RegisterPage.jsx:67-71 | no error iff the confirmation is non-empty and equals the password |
| Register.ErrorMap | src/pages/RegisterPage.jsx:41-72 | exactly the fields with a message get one entry |
| Register.FormErrors | src/pages/RegisterPage.jsx:41-72 | each field has an entry iff its rule fails |
| Register.FormValid | src/pages/RegisterPage.jsx:41-74 | the form is valid iff all five rules pass |
| Register.FailureMessage | src/pages/RegisterPage.jsx:120-123 | an error mentioning both "email" and "exist" (case-insensitive) becomes the duplicate-account message; otherwise the error text or "Registration failed" |
| Register.RegisterPage.constructor | src/pages/RegisterPage.jsx:23-39 | every field is empty and there are no errors |
| Register.RegisterPage.HandleInputChange | src/pages/RegisterPage.jsx:77-91 | only the named field changes, and only its error is cleared |
| Register.RegisterPage.ValidateForm | src/pages/RegisterPage.jsx:41-75 | the error state becomes the rule errors, and the result is true iff there are none |
| FormState.EmailError | src/pages/LoginPage.jsx:44-48 | no error iff the email matches \S+@\S+\.\S+ (also src/pages/RegisterPage.jsx:55-59); an empty one is "required" |
| FormState.PasswordError | src/pages/LoginPage.jsx:50-54 | no error iff the password has at least 6 characters (also src/pages/RegisterPage.jsx:61-65); an empty one is "required" |
| Login.ErrorMap | src/pages/LoginPage.jsx:41-55 | exactly the fields with a message get one entry |
| Login.FormErrors | src/pages/LoginPage.jsx:41-55 | each field has an entry iff its rule fails |
| Login.FormValid | src/pages/LoginPage.jsx:41-58 | the form is valid iff the email and password rules pass |
| Login.FailureMessage | src/pages/LoginPage.jsx:101-104 | an error mentioning "invalid" (case-insensitive) becomes "Invalid email or password."; otherwise the error text or "Login failed" |
| Login.LoginPage.constructor | src/pages/LoginPage.jsx:23-39 | empty email and password and no errors |
| Login.LoginPage.HandleInputChange | src/pages/LoginPage.jsx:60-74 | only the named field changes, and only its error is cleared |
| Login.LoginPage.ValidateForm | src/pages/LoginPage.jsx:41-58 | the error state becomes the rule errors, and the result is true iff there are none |
| Text.Trim | backend/src/controllers/questionController.js:36 | the result is the slice of the input between its leading and trailing white space, which are all white space; it is trimmed, and empty iff the input is all white space |
| Text.JoinSplit | backend/src/services/aiService.js:80 | joining the pieces of a split with the separator restores the string |
| Text.SplitJoin | backend/src/services/aiService.js:80 | splitting a join of separator-free pieces restores the pieces |
| Text.ToLower | src/pages/AskQuestionPage.jsx:92 | each letter A–Z becomes lower case and every other character is kept |
| Text.Includes | src/pages/LoginPage.jsx:102 | true iff the substring occurs |
| Text.CleanListMembers | backend/src/controllers/questionController.js:35-37 | a name survives trim-and-drop-empty iff it is non-empty and is the trimmed form of some piece |
| Text.CleanListOfClean | backend/src/services/aiService.js:81-82 | a list of non-empty trimmed names passes through unchanged |
| Text.CommaListOfJoin | backend/src/services/aiService.js:79-82 | parsing a comma-join of clean names gives the names back |
| Text.DecimalText | frontend/src/pages/QuestionDetailPage.jsx:257 | a number prints as digits that denote it (DigitsValue), with no leading zero, one digit exactly below 10 |
| Findings.LowercaseVoteRejected | frontend/src/pages/QuestionDetailPage.jsx:287-299 | the 'up'/'down' the page sends fail both backend vote validators |
| Findings.WireVoteAccepted | backend/src/middleware/questionValidation.js:46-52 | the upper-cased vote type passes both validators for every kind |
| Findings.QuestionClick | frontend/src/pages/QuestionDetailPage.jsx:124-142 | a click sends its vote type through the vote rules; the ledger is upserted and the shown count moves by ±1 exactly when the type is "UP" or "DOWN", and otherwise nothing changes |
| Findings.ClickAsWritten | frontend/src/pages/QuestionDetailPage.jsx:124-160 | as written, a click sends "up" or "down": nothing is recorded and the shown count does not move |
| Findings.RepeatedUpvoteWireFixed | frontend/src/pages/QuestionDetailPage.jsx:139-142 | with the server's spelling sent, two upvotes by one user leave the ledger as one upvote does, while the shown count rises by 2 |
| Findings.SyncedClick | backend/src/models/questionModel.js:191-225 | a synced click upserts the vote and then shows the server's up − down |
| Findings.RepeatedUpvoteCorrected | backend/src/models/questionModel.js:198-218 | with synced clicks, a repeated upvote leaves the shown count unchanged, and it equals the ledger's up − down |
| Findings.SentBody | src/pages/AskQuestionPage.jsx:142-146 | the body the page posts has no description field |
| Findings.AskPayloadRejected | backend/src/middleware/questionValidation.js:8-10 | every question the Ask page posts fails the create rules on description |
| Findings.CorrectedBody | src/pages/AskQuestionPage.jsx:142-146 | the corrected body sends the content as description |
| Findings.CorrectedPayloadAccepted | backend/src/middleware/questionValidation.js:3-21 | a corrected body with a trimmed title of 10..150, content of at least 20 and non-empty tags passes the create rules unchanged |

## Left out

- Prisma query semantics are not modelled:
  - the case-insensitive `contains` search and tag filter in `getAllQuestions`;
  - `orderBy` on questions;
  - `include`/`select` projections;
  - counts of answers;
  - `getQuestionById`'s joins.

  Questions are a map, and the page is cut from a given sequence of rows.
- Cascading deletes are modelled only for the rows the model keeps: a question's tag links and votes, and an answer's votes. Deleting a question does not remove its answers, because the answer table is a separate class.
- Tag ids, question ids, answer ids and timestamps are generated by the database or the clock, so they are parameters. A tag is identified by its unique name.
- QuestionModel.QuestionStore.CreateQuestion: a tag list that names a tag twice (`["react", "react"]`, which the tag rule accepts) yields a single link here, because the link table is a set. The source creates one link per list element (backend/src/models/questionModel.js:32). With the usual unique (questionId, tagId) key that insert fails, so no question is created and the controller answers 500.
- QuestionModel.QuestionStore.UpdateQuestion: with a tag list that repeats a name, the model replaces the links with the set of names. The source first deletes the old links (backend/src/models/questionModel.js:139), then creates one link per element, which can fail on the duplicate after the old links are gone.
- QuestionController.CreateQuestion: inherits the store's collapse of repeated tag names; it answers 201 with one link per distinct name, where the source can answer 500 "Failed to create question".
- QuestionController.UpdateQuestion: inherits the store's collapse of repeated tag names; it answers 200, where the source can answer 500 after the old links were already deleted.
- Concurrency is not modelled: the `Promise.all` tag upserts, the non-atomic upsert-then-count, and the database's unique-key serialization. Every operation is one step.
- JWT verification, bcrypt, user lookup, the owner lookup and the Gemini call are function parameters. Prompt texts, `logAIOperation` (console output) and environment configuration are not modelled.
- `parseInt` and `Number` results are `Option<int>` inputs.
- Title, description and voteType are `Option<string>`, and a missing field reads as "". A non-string JSON value there (a number, an object) is not represented. express-validator checks the string form of such a value, so in the source a numeric title of ten or more digits passes the title rule. The AI inputs and the items of a tag list do have a non-string case.
- Lengths count sequence elements, one per character. The `.length` checks count UTF-16 code units: the client pages' rules, `validateContentLength` (backend/src/middleware/validation.js:130) and the aiService checks. So for these, a character outside the basic plane counts twice in the source and once here. The title and description rules use validator.js `isLength`, which counts a surrogate pair as one character and skips U+FE0E and U+FE0F. `QuestionValidation.TitleErrors` and `QuestionValidation.DescriptionErrors` agree with that count except on those two variation selectors, which the model counts.
- Text.ToLower: lower-cases ASCII letters only, not all of Unicode as `toLowerCase` does.
- QuestionModel.GetAllQuestions: requires page ≥ 1 and limit ≥ 1. The question-list route does not run `validatePagination`, so other values reach Prisma, whose behaviour is not modelled.
- QuestionController.VoteQuestion: requires the voteType to be "UP" or "DOWN", as the validator mounted before it guarantees.
- The vote rule in backend/src/routes/answers.js:60-72 matches `QuestionValidation.ValidateVoteQuestion` except for its message, so it is not modelled separately.
- `answerController.js` mirrors `questionController.js`, so only the question controller is modelled.
- Client pages: toasts, navigation, loading flags, the summary modal, rendering and the API client's interceptors are not modelled. The API outcome is a parameter of each handler, and the mock data a page loads is a constructor argument.
- QuestionDetail.QuestionDetailPage.HandleVote: kept as written (lowercase kind, ±1 per click). The corrected behaviour is the separate `HandleQuestionVoteSynced`.
- localStorage reads and writes in `checkAuth`, `login`, `register` and `logout` are not modelled; `hasToken` and the call outcomes are parameters.

## Findings

| source | as written | input that shows it | evidently intended | confidence | as-written member | corrected member |
|---|---|---|---|---|---|---|
| frontend/src/pages/QuestionDetailPage.jsx:287-299 | the vote buttons send `'up'` / `'down'`, while the backend vote rules accept only `'UP'` / `'DOWN'` (backend/src/middleware/questionValidation.js:50) | any click on a vote button: voteType "up" | send "UP" / "DOWN" | not executed | Findings.LowercaseVoteRejected | Findings.WireVoteAccepted |
| frontend/src/pages/QuestionDetailPage.jsx:141 | latent: every successful click adds ±1 to the shown count, but the server overwrites the voter's single row (backend/src/models/questionModel.js:198-211). As written no click succeeds (previous row), so this shows once the vote type is sent as "UP"/"DOWN" | with "UP" sent, the same user clicks upvote twice on one question: the ledger holds one upvote, the shown count rises by 2 | show the server's up − down after each vote | not executed | Findings.RepeatedUpvoteWireFixed | Findings.RepeatedUpvoteCorrected |
| src/pages/AskQuestionPage.jsx:142-146 | the page posts `{ title, content, tags }`, but the create rules and the controller read `description` (backend/src/middleware/questionValidation.js:8-10) | any valid form, e.g. a 12-character title, 25-character content and one tag | send the content as `description` | not executed | Findings.AskPayloadRejected | Findings.CorrectedPayloadAccepted |
