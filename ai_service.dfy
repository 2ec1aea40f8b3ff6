/**
  The string handling of backend/src/services/aiService.js around the calls to the
  language model. The model call itself is a parameter: a function from the user's
  text to the reply text, or to the message of the error it throws.
*/
module AiService {
  import opened Wrappers
  import Text

  /** An argument as JavaScript sees it: a string, or a value of another type. */
  datatype AiInput = Str(s: string) | NonString

  /** The model call: the reply text, or the message of a thrown error. */
  type Generate = string -> Result<string, string>

  const MaxTags := 15
  const InvalidQuestion := "Invalid question: must be a non-empty string"
  const InvalidContent := "Invalid content: must be a non-empty string"
  const InvalidContentType := "Invalid content type: must be \"question\" or \"answer\""
  const EmptyResponse := "Empty response from AI service"
  const NoTags := "No valid tags generated"
  const AnswerFailure := "Failed to generate AI answer: "
  const TagsFailure := "Failed to generate tags: "
  const SummaryFailure := "Failed to summarize content: "

  /** `!x || typeof x !== 'string'` fails: a non-empty string. */
  predicate NonEmptyString(input: AiInput)
  {
    input.Str? && input.s != []
  }

  /** A reply checked for content and trimmed: `text.trim()`, or the empty-response error. */
  function TrimmedReply(text: string): (r: Result<string, string>)
    ensures r.Err? <==> Text.AllSpace(text)
    ensures r.Err? ==> r.error == EmptyResponse
    ensures r.Ok? ==> r.value == Text.Trim(text) && r.value != [] && Text.IsTrimmed(r.value)
  {
    var t := Text.Trim(text);
    if t == [] then Err(EmptyResponse) else Ok(t)
  }

  /** `generateAIAnswer`: the trimmed reply, or an error prefixed "Failed to generate AI answer: ". */
  function GenerateAIAnswer(question: AiInput, generate: Generate): (r: Result<string, string>)
    ensures !NonEmptyString(question) ==> r == Err(AnswerFailure + InvalidQuestion)
    ensures r.Ok? <==> NonEmptyString(question) && generate(question.s).Ok? && !Text.AllSpace(generate(question.s).value)
    ensures r.Ok? ==> r.value == Text.Trim(generate(question.s).value) && r.value != [] && Text.IsTrimmed(r.value)
  {
    if !NonEmptyString(question) then Err(AnswerFailure + InvalidQuestion)
    else
      match generate(question.s)
      case Err(message) => Err(AnswerFailure + message)
      case Ok(text) =>
        match TrimmedReply(text)
        case Err(message) => Err(AnswerFailure + message)
        case Ok(answer) => Ok(answer)
  }

  /** The first `n` elements, or all of them when there are fewer. */
  function Take<T>(s: seq<T>, n: nat): (r: seq<T>)
    ensures |r| == if |s| < n then |s| else n
    ensures r == s[..|r|]
    ensures forall k :: 0 <= k < |r| ==> r[k] == s[k]
  {
    if |s| < n then s else s[..n]
  }

  /** The tag reply parsed: split on commas, pieces trimmed, empty ones dropped, at most 15 kept. */
  function ParseTagReply(text: string): (r: Result<seq<string>, string>)
    ensures Text.AllSpace(text) ==> r == Err(EmptyResponse)
    ensures r.Ok? ==>
      var names := Text.CommaList(Text.Trim(text));
      && 1 <= |r.value| == (if |names| < MaxTags then |names| else MaxTags)
      && r.value == names[..|r.value|]
      && forall k :: 0 <= k < |r.value| ==> Text.IsName(r.value[k])
    ensures r.Err? <==> Text.CommaList(Text.Trim(text)) == []
  {
    var t := Text.Trim(text);
    if t == [] then
      Text.CommaListOfEmpty();
      Err(EmptyResponse)
    else
      var tags := Take(Text.CommaList(t), MaxTags);
      if tags == [] then Err(NoTags) else Ok(tags)
  }

  /** `generateTags`: the parsed tags, or an error prefixed "Failed to generate tags: ". */
  function GenerateTags(question: AiInput, generate: Generate): (r: Result<seq<string>, string>)
    ensures !NonEmptyString(question) ==> r == Err(TagsFailure + InvalidQuestion)
    ensures r.Ok? <==> NonEmptyString(question) && generate(question.s).Ok? && ParseTagReply(generate(question.s).value).Ok?
    ensures r.Ok? ==> r.value == ParseTagReply(generate(question.s).value).value
  {
    if !NonEmptyString(question) then Err(TagsFailure + InvalidQuestion)
    else
      match generate(question.s)
      case Err(message) => Err(TagsFailure + message)
      case Ok(text) =>
        match ParseTagReply(text)
        case Err(message) => Err(TagsFailure + message)
        case Ok(tags) => Ok(tags)
  }

  /** A reply that lists up to 15 clean tag names, joined with commas, parses back to those names. */
  lemma {:induction false} TagReplyRoundTrip(names: seq<string>)
    requires 1 <= |names| <= MaxTags
    requires forall k :: 0 <= k < |names| ==> Text.IsName(names[k])
    ensures ParseTagReply(Text.Join(names, ',')) == Ok(names)
  {
    var j := Text.Join(names, ',');
    Text.JoinTrimmed(names, ',');
    Text.TrimOfTrimmed(j);
    Text.CommaListOfJoin(names);
    assert Take(Text.CommaList(Text.Trim(j)), MaxTags) == names;
  }

  /** A reply listing more than 15 clean names keeps the first 15. */
  lemma {:induction false} TagReplyCapped(names: seq<string>)
    requires |names| > MaxTags
    requires forall k :: 0 <= k < |names| ==> Text.IsName(names[k])
    ensures ParseTagReply(Text.Join(names, ',')) == Ok(names[..MaxTags])
  {
    var j := Text.Join(names, ',');
    Text.JoinTrimmed(names, ',');
    Text.TrimOfTrimmed(j);
    Text.CommaListOfJoin(names);
  }

  /** The content type of `summarizeContent`, "question" when not given. */
  function ContentType(contentType: Option<string>): (t: string)
    ensures contentType.None? ==> t == "question"
    ensures contentType.Some? ==> t == contentType.value
  {
    if contentType.None? then "question" else contentType.value
  }

  /** `summarizeContent`: content checked first, then the content type, then the reply. */
  function SummarizeContent(content: AiInput, contentType: Option<string>, generate: Generate): (r: Result<string, string>)
    ensures !NonEmptyString(content) ==> r == Err(SummaryFailure + InvalidContent)
    ensures NonEmptyString(content) && ContentType(contentType) !in ["question", "answer"] ==> r == Err(SummaryFailure + InvalidContentType)
    ensures r.Ok? <==>
      && NonEmptyString(content)
      && ContentType(contentType) in ["question", "answer"]
      && generate(content.s).Ok?
      && !Text.AllSpace(generate(content.s).value)
    ensures r.Ok? ==> r.value == Text.Trim(generate(content.s).value)
  {
    if !NonEmptyString(content) then Err(SummaryFailure + InvalidContent)
    else if ContentType(contentType) !in ["question", "answer"] then Err(SummaryFailure + InvalidContentType)
    else
      match generate(content.s)
      case Err(message) => Err(SummaryFailure + message)
      case Ok(text) =>
        match TrimmedReply(text)
        case Err(message) => Err(SummaryFailure + message)
        case Ok(summary) => Ok(summary)
  }

  /** `validateAIResponse`: a string of 10 to 10000 characters. */
  function ValidateAIResponse(response: AiInput): (b: bool)
    ensures b <==> response.Str? && 10 <= |response.s| <= 10000
  {
    if !NonEmptyString(response) then false
    else if |response.s| < 10 then false
    else if |response.s| > 10000 then false
    else true
  }

  /** `checkAIRateLimit`: every request is allowed. */
  function CheckAIRateLimit(userId: string): (allowed: bool)
    ensures allowed
  {
    true
  }
}
