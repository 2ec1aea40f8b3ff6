/**
  `QuestionController` (backend/src/controllers/questionController.js): the query
  parsing of `getAllQuestions` and the mapping of model results and errors to
  HTTP statuses, with each handler run against the question store.
*/
module QuestionController {
  import opened Wrappers
  import Text
  import Validation
  import VoteLedger
  import QuestionModel

  /** A query-string parameter: missing, given once, or given several times (an array). */
  datatype QueryValue = Missing | One(s: string) | Many(items: seq<string>)

  /** What a handler sends: status and message. */
  datatype Response = Response(status: int, message: string)

  /** The tag filter of `getAllQuestions`. */
  function ParseTags(tags: QueryValue): (r: seq<string>)
    ensures tags.Many? ==> r == tags.items
    ensures tags.Missing? ==> r == []
    ensures tags.One? ==> r == Text.CommaList(tags.s)
  {
    match tags
    case Missing => []
    case One(s) => if s == [] then [] else Text.CommaList(s)
    case Many(items) => items
  }

  /** A tag string parses to exactly its non-empty trimmed comma-separated pieces. */
  lemma {:induction false} ParseTagsMembers(s: string, x: string)
    ensures x in ParseTags(One(s)) ==> x != [] && exists k :: 0 <= k < |Text.Split(s, ',')| && Text.Trim(Text.Split(s, ',')[k]) == x
    ensures forall k :: 0 <= k < |Text.Split(s, ',')| && Text.Trim(Text.Split(s, ',')[k]) == x && x != [] ==> x in ParseTags(One(s))
  {
    var pieces := Text.Split(s, ',');
    assert ParseTags(One(s)) == Text.CleanList(pieces);
    Text.CleanListMembers(pieces, x);
  }

  /** Every tag parsed from a string is non-empty, trimmed and free of commas. */
  lemma ParsedTagsClean(s: string)
    ensures forall k :: 0 <= k < |ParseTags(One(s))| ==>
      Text.IsName(ParseTags(One(s))[k])
  {
  }

  /** The page and limit handed to the model: the numbers of the parameters, 1 and 10 when missing. */
  function PageArgs(page: Validation.NumParam, limit: Validation.NumParam): (r: (Option<int>, Option<int>))
    ensures page.Absent? ==> r.0 == Some(1)
    ensures limit.Absent? ==> r.1 == Some(10)
    ensures page.Given? ==> r.0 == page.parsed
    ensures limit.Given? ==> r.1 == limit.parsed
  {
    (Validation.ParsedOr(page, 1), Validation.ParsedOr(limit, 10))
  }

  /** `createQuestion`: 201 when the model returns, 500 when it throws. */
  function CreateResponse<T>(r: Result<T, string>): (resp: Response)
    ensures resp.status == 201 <==> r.Ok?
    ensures r.Err? ==> resp == Response(500, "Failed to create question")
  {
    if r.Ok? then Response(201, "Question created successfully")
    else Response(500, "Failed to create question")
  }

  /** get/update/delete: 404 for a null result, 200 for a row, 500 when the model throws. */
  function NullableResponse<T>(r: Result<Option<T>, string>, success: string, failure: string): (resp: Response)
    ensures resp.status == 200 <==> r.Ok? && r.value.Some?
    ensures resp.status == 404 <==> r.Ok? && r.value.None?
    ensures resp.status == 404 ==> resp.message == QuestionModel.QuestionNotFound
    ensures r.Err? ==> resp == Response(500, failure)
  {
    match r
    case Err(_) => Response(500, failure)
    case Ok(None) => Response(404, QuestionModel.QuestionNotFound)
    case Ok(Some(_)) => Response(200, success)
  }

  /** `voteQuestion`: an error whose message is "Question not found" is 404, any other 500. */
  function VoteResponse<T>(r: Result<T, string>): (resp: Response)
    ensures resp.status == 200 <==> r.Ok?
    ensures resp.status == 404 <==> r == Err(QuestionModel.QuestionNotFound)
    ensures r.Err? && r.error != QuestionModel.QuestionNotFound ==> resp == Response(500, "Failed to vote on question")
  {
    match r
    case Ok(_) => Response(200, "Vote registered successfully")
    case Err(message) =>
      if message == QuestionModel.QuestionNotFound then Response(404, QuestionModel.QuestionNotFound)
      else Response(500, "Failed to vote on question")
  }

  /** The validated vote type string as the model's vote direction. */
  function VoteTypeOf(voteType: string): (v: VoteLedger.VoteType)
    requires voteType == "UP" || voteType == "DOWN"
    ensures v == VoteLedger.Up <==> voteType == "UP"
  {
    if voteType == "UP" then VoteLedger.Up else VoteLedger.Down
  }

  /** `getQuestionById` against the store: 404 exactly for an unknown id. */
  method GetQuestionById(store: QuestionModel.QuestionStore, id: string) returns (resp: Response, body: Option<QuestionModel.Question>)
    requires store.Valid()
    ensures resp.status == 404 <==> id !in store.questions
    ensures resp.status == 200 <==> id in store.questions
    ensures body.Some? <==> id in store.questions
    ensures body.Some? ==> body.value == store.questions[id]
  {
    body := if id in store.questions then Some(store.questions[id]) else None;
    resp := NullableResponse(Ok(body), "Question fetched successfully", "Failed to fetch question");
  }

  /** `voteQuestion` against the store: 404 exactly when the question is unknown. */
  method VoteQuestion(store: QuestionModel.QuestionStore, id: string, userId: string, voteType: string) returns (resp: Response)
    requires store.Valid()
    requires voteType == "UP" || voteType == "DOWN"
    modifies store`votes
    ensures store.Valid()
    ensures resp.status == 404 <==> id !in store.questions
    ensures resp.status == 200 <==> id in store.questions
    ensures id !in store.questions ==> store.votes == old(store.votes)
    ensures id in store.questions ==> store.votes == VoteLedger.Upsert(old(store.votes), userId, id, VoteTypeOf(voteType))
  {
    var r := store.VoteQuestion(id, userId, VoteTypeOf(voteType));
    resp := VoteResponse(r);
  }

  /**
    `updateQuestion` against the store: 404 and no change for an unknown id;
    otherwise 200 with the model's update applied.
  */
  method UpdateQuestion(store: QuestionModel.QuestionStore, id: string, title: Option<string>, description: Option<string>, tags: Option<seq<string>>)
    returns (resp: Response)
    requires store.Valid()
    modifies store
    ensures store.Valid()
    ensures resp.status == 404 <==> id !in old(store.questions)
    ensures resp.status == 200 <==> id in old(store.questions)
    ensures resp.status == 404 ==> resp.message == QuestionModel.QuestionNotFound
    ensures id !in old(store.questions) ==>
      && store.questions == old(store.questions) && store.tags == old(store.tags)
      && store.questionTags == old(store.questionTags) && store.votes == old(store.votes)
    ensures id in old(store.questions) ==>
      var q := old(store.questions)[id];
      && id in store.questions && store.questions == old(store.questions)[id := store.questions[id]]
      && store.questions[id].id == id && store.questions[id].userId == q.userId
      && store.questions[id].title == (if title.Some? && title.value != [] then title.value else q.title)
      && store.questions[id].description == (if description.Some? && description.value != [] then description.value else q.description)
    ensures id in old(store.questions) && tags.Some? ==>
      && store.tags == old(store.tags) + QuestionModel.NameSet(tags.value)
      && store.TagsOf(id) == QuestionModel.NameSet(tags.value)
      && (forall link :: link in store.questionTags && link.0 != id <==> link in old(store.questionTags) && link.0 != id)
    ensures tags.None? ==> store.tags == old(store.tags) && store.questionTags == old(store.questionTags)
    ensures store.votes == old(store.votes)
  {
    var r := store.UpdateQuestion(id, title, description, tags);
    resp := NullableResponse(Ok(r), "Question updated successfully", "Failed to update question");
  }

  /**
    `deleteQuestion` against the store: 404 and no change for an unknown id;
    otherwise 200, with the question, its tag links and its votes removed.
  */
  method DeleteQuestion(store: QuestionModel.QuestionStore, id: string) returns (resp: Response)
    requires store.Valid()
    modifies store
    ensures store.Valid()
    ensures resp.status == 404 <==> id !in old(store.questions)
    ensures resp.status == 200 <==> id in old(store.questions)
    ensures resp.status == 404 ==> resp.message == QuestionModel.QuestionNotFound
    ensures id !in old(store.questions) ==>
      store.questions == old(store.questions) && store.questionTags == old(store.questionTags) && store.votes == old(store.votes)
    ensures id in old(store.questions) ==>
      && store.questions == old(store.questions) - {id}
      && store.questionTags == (set link | link in old(store.questionTags) && link.0 != id)
      && store.votes == (map k | k in old(store.votes) && k.1 != id :: old(store.votes)[k])
    ensures store.tags == old(store.tags)
  {
    var r := store.DeleteQuestion(id);
    resp := NullableResponse(Ok(r), "Question deleted successfully", "Failed to delete question");
  }

  /** `createQuestion` against the store; `id` is the fresh id the database assigns. */
  method CreateQuestion(store: QuestionModel.QuestionStore, id: string, title: string, description: string, tags: seq<string>, userId: string)
    returns (resp: Response)
    requires store.Valid() && id !in store.questions
    modifies store
    ensures store.Valid()
    ensures resp.status == 201
    ensures store.questions == old(store.questions)[id := QuestionModel.Question(id, title, description, userId)]
    ensures store.tags == old(store.tags) + QuestionModel.NameSet(tags)
    ensures store.questionTags == old(store.questionTags) + QuestionModel.Links(id, tags)
    ensures store.TagsOf(id) == QuestionModel.NameSet(tags)
    ensures store.votes == old(store.votes)
  {
    var q := store.CreateQuestion(id, title, description, tags, userId);
    resp := CreateResponse<QuestionModel.Question>(Ok(q));
  }
}
