/**
  The express-validator rule sets of backend/src/middleware/questionValidation.js.
  Every validator of a chain runs and each failing one contributes one error; the
  chains run in declaration order. A missing field reads as "" to the string
  validators, and `.optional()` skips the whole chain for a missing field.
*/
module QuestionValidation {
  import opened Wrappers
  import Text
  import Validation

  /** One element of a `tags` array: a string, or any other JSON value. */
  datatype TagItem = StrItem(s: string) | OtherItem

  /** The `tags` field when present: an array, or any other JSON value. */
  datatype TagsValue = NotArray | ArrayOf(items: seq<TagItem>)

  /** The request body fields these rules look at; None is a missing field. */
  datatype QuestionBody = QuestionBody(title: Option<string>, description: Option<string>, tags: Option<TagsValue>)

  const TitleMin := 10
  const TitleMax := 150
  const DescriptionMin := 20
  const TitleMessage := "Title must be between 10 and 150 characters"
  const DescriptionMessage := "Description must be at least 20 characters"
  const TagsRequiredMessage := "At least one tag is required"
  const TagsShapeMessage := "Tags must be a non-empty array of strings"
  const VoteRequiredMessage := "voteType is required"
  const VoteValueMessage := "voteType must be either 'UP' or 'DOWN'"

  /** How the string validators read a field: a missing one is "". */
  function AsString(v: Option<string>): (s: string)
    ensures v.Some? ==> s == v.value
    ensures v.None? ==> s == []
  {
    if v.Some? then v.value else []
  }

  /** The title after the `trim()` sanitizer. */
  function SanitizedTitle(title: Option<string>): (s: string)
    ensures Text.IsTrimmed(s)
    ensures |s| <= |AsString(title)|
  {
    Text.Trim(AsString(title))
  }

  predicate TitleOk(title: Option<string>)
  {
    TitleMin <= |SanitizedTitle(title)| <= TitleMax
  }

  predicate DescriptionOk(description: Option<string>)
  {
    |AsString(description)| >= DescriptionMin
  }

  predicate NonEmptyStrings(items: seq<TagItem>)
  {
    forall k :: 0 <= k < |items| ==> items[k].StrItem? && items[k].s != []
  }

  /** `isArray({ min: 1 })`. */
  predicate HasOneTag(tags: Option<TagsValue>)
  {
    tags.Some? && tags.value.ArrayOf? && |tags.value.items| >= 1
  }

  /** The custom tags rule: a non-empty array of non-empty strings. */
  predicate TagsOk(tags: Option<TagsValue>)
  {
    HasOneTag(tags) && NonEmptyStrings(tags.value.items)
  }

  function TitleErrors(title: Option<string>): (r: seq<Validation.RawError>)
    ensures r == [] <==> TitleOk(title)
    ensures r != [] ==> r == [Validation.RawError("title", TitleMessage, Some(SanitizedTitle(title)))]
  {
    if TitleOk(title) then []
    else [Validation.RawError("title", TitleMessage, Some(SanitizedTitle(title)))]
  }

  function DescriptionErrors(description: Option<string>): (r: seq<Validation.RawError>)
    ensures r == [] <==> DescriptionOk(description)
    ensures r != [] ==> r == [Validation.RawError("description", DescriptionMessage, description)]
  {
    if DescriptionOk(description) then []
    else [Validation.RawError("description", DescriptionMessage, description)]
  }

  /** Both tag validators run: a missing or empty array fails both, a bad element only the custom one. */
  function TagsErrors(tags: Option<TagsValue>): (r: seq<Validation.RawError>)
    ensures r == [] <==> TagsOk(tags)
    ensures !HasOneTag(tags) ==> |r| == 2 && r[0].msg == TagsRequiredMessage && r[1].msg == TagsShapeMessage
    ensures HasOneTag(tags) && !TagsOk(tags) ==> |r| == 1 && r[0].msg == TagsShapeMessage
    ensures forall e :: e in r ==> e.path == "tags"
  {
    (if HasOneTag(tags) then [] else [Validation.RawError("tags", TagsRequiredMessage, None)])
    + (if TagsOk(tags) then [] else [Validation.RawError("tags", TagsShapeMessage, None)])
  }

  /** The errors `validateCreateQuestion` collects, in order: title, description, tags. */
  function CreateErrors(b: QuestionBody): (r: seq<Validation.RawError>)
    ensures r == [] <==> TitleOk(b.title) && DescriptionOk(b.description) && TagsOk(b.tags)
    ensures |r| <= 4
  {
    TitleErrors(b.title) + DescriptionErrors(b.description) + TagsErrors(b.tags)
  }

  /** The errors `validateUpdateQuestion` collects: a missing field is not checked. */
  function UpdateErrors(b: QuestionBody): (r: seq<Validation.RawError>)
    ensures r == [] <==>
      (b.title.Some? ==> TitleOk(b.title))
      && (b.description.Some? ==> DescriptionOk(b.description))
      && (b.tags.Some? ==> TagsOk(b.tags))
    ensures b.title.Some? && b.description.Some? && b.tags.Some? ==> r == CreateErrors(b)
    ensures b.title.None? && b.description.None? && b.tags.None? ==> r == []
  {
    (if b.title.Some? then TitleErrors(b.title) else [])
    + (if b.description.Some? then DescriptionErrors(b.description) else [])
    + (if b.tags.Some? then TagsErrors(b.tags) else [])
  }

  /** The body the next handler sees: a checked title replaced by its trimmed form. */
  function Sanitized(b: QuestionBody, optional: bool): (s: QuestionBody)
    ensures s.description == b.description && s.tags == b.tags
    ensures optional && b.title.None? ==> s.title == None
    ensures !(optional && b.title.None?) ==> s.title == Some(SanitizedTitle(b.title))
  {
    if optional && b.title.None? then b
    else b.(title := Some(SanitizedTitle(b.title)))
  }

  /** `validateCreateQuestion` followed by `validate`. */
  function ValidateCreateQuestion(b: QuestionBody): (r: Validation.Outcome<QuestionBody>)
    ensures r.Next? <==> TitleOk(b.title) && DescriptionOk(b.description) && TagsOk(b.tags)
    ensures r.Next? ==> r.value == Sanitized(b, false)
    ensures r.ValidationFailed? ==>
      |r.details| == |CreateErrors(b)|
      && forall i :: 0 <= i < |r.details| ==> r.details[i] == Validation.ToDetail(CreateErrors(b)[i])
  {
    var e := CreateErrors(b);
    if e == [] then Validation.Next(Sanitized(b, false))
    else Validation.ValidationFailed(Validation.Validate(e).details)
  }

  /** `validateUpdateQuestion` followed by `validate`. */
  function ValidateUpdateQuestion(b: QuestionBody): (r: Validation.Outcome<QuestionBody>)
    ensures r.Next? <==> UpdateErrors(b) == []
    ensures r.Next? ==> r.value == Sanitized(b, true)
    ensures r.ValidationFailed? ==>
      |r.details| == |UpdateErrors(b)|
      && forall i :: 0 <= i < |r.details| ==> r.details[i] == Validation.ToDetail(UpdateErrors(b)[i])
  {
    var e := UpdateErrors(b);
    if e == [] then Validation.Next(Sanitized(b, true))
    else Validation.ValidationFailed(Validation.Validate(e).details)
  }

  /** Every body the create rules accept, the update rules accept too, with the same sanitized result. */
  lemma CreateAcceptedUpdateAccepted(b: QuestionBody)
    requires ValidateCreateQuestion(b).Next?
    ensures ValidateUpdateQuestion(b) == ValidateCreateQuestion(b)
  {
  }

  /** `validateVoteQuestion`: `exists()` then `isIn(["UP", "DOWN"])`, both run. */
  function VoteErrors(voteType: Option<string>): (r: seq<Validation.RawError>)
    ensures r == [] <==> voteType == Some("UP") || voteType == Some("DOWN")
    ensures voteType.None? ==> |r| == 2 && r[0].msg == VoteRequiredMessage && r[1].msg == VoteValueMessage
    ensures voteType.Some? && r != [] ==> r == [Validation.RawError("voteType", VoteValueMessage, voteType)]
  {
    (if voteType.None? then [Validation.RawError("voteType", VoteRequiredMessage, None)] else [])
    + (if AsString(voteType) in ["UP", "DOWN"] then [] else [Validation.RawError("voteType", VoteValueMessage, voteType)])
  }

  /** `validateVoteQuestion` followed by `validate`. */
  function ValidateVoteQuestion(voteType: Option<string>): (r: Validation.Outcome<()>)
    ensures r.Next? <==> voteType == Some("UP") || voteType == Some("DOWN")
    ensures r.ValidationFailed? ==> forall d :: d in r.details ==> d.field == "voteType"
    ensures voteType.None? ==>
      && r.ValidationFailed? && |r.details| == 2
      && r.details[0] == Validation.Detail("voteType", VoteRequiredMessage, None)
      && r.details[1] == Validation.Detail("voteType", VoteValueMessage, None)
    ensures voteType.Some? && r.ValidationFailed? ==>
      r.details == [Validation.Detail("voteType", VoteValueMessage, voteType)]
  {
    Validation.Validate(VoteErrors(voteType))
  }

  /** The rule set of the question routes and the generic `validateVote` accept the same vote types. */
  lemma VoteRulesAgree(voteType: Option<string>)
    ensures ValidateVoteQuestion(voteType).Next? <==> Validation.ValidateVote(voteType).Next?
  {
  }
}
