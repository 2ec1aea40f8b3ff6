/**
  The request validators of backend/src/middleware/validation.js. Each one either
  lets the request through (`next()`) or answers 400 "Validation failed" with a
  list of details; the custom validators report only their first failure.
*/
module Validation {
  import opened Wrappers
  import Text

  /** An express-validator error: the field path, its message and the value (None when not a string). */
  datatype RawError = RawError(path: string, msg: string, value: Option<string>)

  /** One entry of the `details` of a 400 response. */
  datatype Detail = Detail(field: string, message: string, value: Option<string>)

  /** A middleware's verdict: continue with a value, or answer 400 with details. */
  datatype Outcome<+T> = Next(value: T) | ValidationFailed(details: seq<Detail>)

  const ValidationStatus := 400

  function ToDetail(e: RawError): (d: Detail)
    ensures d.field == e.path && d.message == e.msg && d.value == e.value
  {
    Detail(e.path, e.msg, e.value)
  }

  /** `validate`: pass when express-validator collected no error, else report every one, in order. */
  function Validate(errors: seq<RawError>): (r: Outcome<()>)
    ensures r.Next? <==> errors == []
    ensures r.ValidationFailed? ==>
      |r.details| == |errors|
      && forall i :: 0 <= i < |errors| ==> r.details[i] == ToDetail(errors[i])
  {
    if errors == [] then Next(())
    else ValidationFailed(seq(|errors|, i requires 0 <= i < |errors| => ToDetail(errors[i])))
  }

  /** A query parameter: its raw text and the number the caller's conversion yields (None for NaN). */
  datatype NumParam = Absent | Given(raw: string, parsed: Option<int>)

  /** `req.pagination`. */
  datatype Paging = Paging(page: int, limit: int, skip: int)

  const DefaultPage := 1
  const DefaultLimit := 10
  const MaxLimit := 100

  /** The number a parameter stands for, with the destructuring default applied. */
  function ParsedOr(p: NumParam, default: nat): Option<int>
  {
    match p
    case Absent => Some(default)
    case Given(_, n) => n
  }

  function RawValue(p: NumParam, default: nat): Option<string>
  {
    match p
    case Absent => Some(Text.DecimalText(default))
    case Given(raw, _) => Some(raw)
  }

  ghost predicate PageAccepted(page: NumParam)
  {
    var n := ParsedOr(page, DefaultPage); n.Some? && n.value >= 1
  }

  ghost predicate LimitAccepted(limit: NumParam)
  {
    var n := ParsedOr(limit, DefaultLimit); n.Some? && 1 <= n.value <= MaxLimit
  }

  /** `validatePagination`: page first, then limit; on success page, limit and skip = (page - 1) * limit. */
  function ValidatePagination(page: NumParam, limit: NumParam): (r: Outcome<Paging>)
    ensures r.Next? <==> PageAccepted(page) && LimitAccepted(limit)
    ensures !PageAccepted(page) ==> r.ValidationFailed? && |r.details| == 1 && r.details[0].field == "page"
    ensures PageAccepted(page) && !LimitAccepted(limit) ==> r.ValidationFailed? && |r.details| == 1 && r.details[0].field == "limit"
    ensures r.Next? ==>
      && Some(r.value.page) == ParsedOr(page, DefaultPage)
      && Some(r.value.limit) == ParsedOr(limit, DefaultLimit)
      && r.value.skip == (r.value.page - 1) * r.value.limit
      && r.value.skip >= 0
  {
    var p := ParsedOr(page, DefaultPage);
    var l := ParsedOr(limit, DefaultLimit);
    if p.None? || p.value < 1 then
      ValidationFailed([Detail("page", "Page must be a positive integer", RawValue(page, DefaultPage))])
    else if l.None? || l.value < 1 || l.value > MaxLimit then
      ValidationFailed([Detail("limit", "Limit must be between 1 and 100", RawValue(limit, DefaultLimit))])
    else
      Next(Paging(p.value, l.value, (p.value - 1) * l.value))
  }

  /** A JavaScript string is truthy when it is present and non-empty. */
  predicate Truthy(s: Option<string>)
  {
    s.Some? && s.value != []
  }

  predicate IsAsciiLetterOrDigit(c: char)
  {
    ('a' <= c <= 'z') || ('A' <= c <= 'Z') || ('0' <= c <= '9')
  }

  /** `/^[a-zA-Z0-9,\s]+$/`. */
  predicate TagsCharset(s: string)
  {
    s != [] && forall k :: 0 <= k < |s| ==> IsAsciiLetterOrDigit(s[k]) || s[k] == ',' || Text.IsSpace(s[k])
  }

  const SortOptions: seq<string> := ["newest", "oldest", "votes", "answers", "views"]
  const FilterOptions: seq<string> := ["all", "unanswered", "answered", "accepted"]
  const MaxQueryLength := 200

  ghost predicate QueryOk(q: Option<string>) { !Truthy(q) || |q.value| <= MaxQueryLength }
  ghost predicate TagsOk(tags: Option<string>) { !Truthy(tags) || TagsCharset(tags.value) }
  ghost predicate SortOk(sort: Option<string>) { !Truthy(sort) || sort.value in SortOptions }
  ghost predicate FilterOk(filter: Option<string>) { !Truthy(filter) || filter.value in FilterOptions }

  /** `validateSearch`: q, tags, sort, filter in that order; only the first failure is reported. */
  function ValidateSearch(q: Option<string>, tags: Option<string>, sort: Option<string>, filter: Option<string>): (r: Outcome<()>)
    ensures r.Next? <==> QueryOk(q) && TagsOk(tags) && SortOk(sort) && FilterOk(filter)
    ensures r.ValidationFailed? ==> |r.details| == 1
    ensures !QueryOk(q) ==> r.ValidationFailed? && r.details[0].field == "q"
    ensures QueryOk(q) && !TagsOk(tags) ==> r.ValidationFailed? && r.details[0].field == "tags"
    ensures QueryOk(q) && TagsOk(tags) && !SortOk(sort) ==> r.ValidationFailed? && r.details[0].field == "sort"
    ensures QueryOk(q) && TagsOk(tags) && SortOk(sort) && !FilterOk(filter) ==> r.ValidationFailed? && r.details[0].field == "filter"
  {
    if Truthy(q) && |q.value| > MaxQueryLength then
      ValidationFailed([Detail("q", "Search query too long (max 200 characters)", q)])
    else if Truthy(tags) && !TagsCharset(tags.value) then
      ValidationFailed([Detail("tags", "Tags contain invalid characters", tags)])
    else if Truthy(sort) && sort.value !in SortOptions then
      ValidationFailed([Detail("sort", "Invalid sort option", sort)])
    else if Truthy(filter) && filter.value !in FilterOptions then
      ValidationFailed([Detail("filter", "Invalid filter option", filter)])
    else
      Next(())
  }

  /** `validateVote`: only "UP" and "DOWN" pass. */
  function ValidateVote(voteType: Option<string>): (r: Outcome<()>)
    ensures r.Next? <==> voteType == Some("UP") || voteType == Some("DOWN")
    ensures r.ValidationFailed? ==> r.details == [Detail("voteType", "Vote type must be either UP or DOWN", voteType)]
  {
    if !Truthy(voteType) || voteType.value !in ["UP", "DOWN"] then
      ValidationFailed([Detail("voteType", "Vote type must be either UP or DOWN", voteType)])
    else
      Next(())
  }

  const DefaultMaxContentLength := 10000
  const EchoLength := 100

  /** The text `validateContentLength` checks: `content || description`. */
  function CheckedText(content: Option<string>, description: Option<string>): (t: Option<string>)
    ensures Truthy(content) ==> t == content
    ensures !Truthy(content) ==> t == description
  {
    if Truthy(content) then content else description
  }

  /** At most the first 100 characters, followed by "...". */
  function Excerpt(s: string): (r: string)
    ensures |r| == (if |s| < EchoLength then |s| else EchoLength) + 3
    ensures r[..|r| - 3] == s[..|r| - 3] && r[|r| - 3..] == "..."
  {
    (if |s| < EchoLength then s else s[..EchoLength]) + "..."
  }

  /** The limit `validateContentLength` applies: the argument, 10000 when it is left out. */
  function MaxLengthOr(maxLength: Option<nat>): (m: nat)
    ensures maxLength.None? ==> m == DefaultMaxContentLength
    ensures maxLength.Some? ==> m == maxLength.value
  {
    if maxLength.Some? then maxLength.value else DefaultMaxContentLength
  }

  /**
    `validateContentLength(maxLength)`: reject a checked text longer than the
    limit; `None` stands for a call without an argument.
  */
  function ValidateContentLength(maxLength: Option<nat>, content: Option<string>, description: Option<string>): (r: Outcome<()>)
    ensures var t := CheckedText(content, description);
            r.ValidationFailed? <==> Truthy(t) && |t.value| > MaxLengthOr(maxLength)
    ensures maxLength.None? ==>
      (r.ValidationFailed? <==> Truthy(CheckedText(content, description)) && |CheckedText(content, description).value| > 10000)
    ensures r.ValidationFailed? ==>
      |r.details| == 1
      && r.details[0].field == (if Truthy(content) then "content" else "description")
      && r.details[0].message == "Content too long (max " + Text.DecimalText(MaxLengthOr(maxLength)) + " characters)"
      && r.details[0].value == Some(Excerpt(CheckedText(content, description).value))
  {
    var max := MaxLengthOr(maxLength);
    var t := CheckedText(content, description);
    if Truthy(t) && |t.value| > max then
      ValidationFailed([Detail(
        if Truthy(content) then "content" else "description",
        "Content too long (max " + Text.DecimalText(max) + " characters)",
        Some(Excerpt(t.value)))])
    else
      Next(())
  }
}
