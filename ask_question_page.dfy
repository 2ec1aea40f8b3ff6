/**
  The Ask Question page (src/pages/AskQuestionPage.jsx): the form fields, the
  selected tag list, the AI tag suggestions and the error map, with the handlers
  that change them.
*/
module AskQuestion {
  import opened Wrappers
  import Text
  import FormState

  predicate NoDup(s: seq<string>)
  {
    forall i, j :: 0 <= i < j < |s| ==> s[i] != s[j]
  }

  /** The fixed suggestions `generateTags` shows. */
  const DummyTags: seq<string> := ["react", "javascript", "frontend", "hooks", "tiptap", "chakraui", "vite", "context", "state", "performance"]

  /** How many suggestions `generateTags` selects on its own. */
  const AutoSelect := 3

  /** `tag.toLowerCase().trim()`. */
  function Normalize(tag: string): (r: string)
    ensures Text.IsTrimmed(r)
  {
    Text.Trim(Text.ToLower(tag))
  }

  /** The tag list after `addTag(tag)`: the normalized tag appended when non-empty and new. */
  function AddedTags(tags: seq<string>, tag: string): (r: seq<string>)
    ensures forall x :: x in r <==> x in tags || (x == Normalize(tag) && x != [])
    ensures |tags| <= |r| <= |tags| + 1 && r[..|tags|] == tags
    ensures NoDup(tags) ==> NoDup(r)
  {
    var t := Normalize(tag);
    if t != [] && t !in tags then
      AppendNoDup(tags, t);
      tags + [t]
    else tags
  }

  /** Appending a name the list does not hold keeps it duplicate-free. */
  lemma AppendNoDup(tags: seq<string>, t: string)
    requires t !in tags
    ensures NoDup(tags) ==> NoDup(tags + [t])
  {
    var r := tags + [t];
    if NoDup(tags) {
      forall i, j | 0 <= i < j < |r| ensures r[i] != r[j] {
        assert r[i] == tags[i];
      }
    }
  }

  /** Adding the same tag twice is adding it once. */
  lemma AddTagIdempotent(tags: seq<string>, tag: string)
    ensures AddedTags(AddedTags(tags, tag), tag) == AddedTags(tags, tag)
  {
  }

  /** `tags.filter(t => t !== removed)`. */
  function Without(tags: seq<string>, removed: string): (r: seq<string>)
    ensures forall x :: x in r <==> x in tags && x != removed
    ensures |r| <= |tags|
    ensures removed !in tags ==> r == tags
    decreases |tags|
  {
    if tags == [] then []
    else (if tags[0] == removed then [] else [tags[0]]) + Without(tags[1..], removed)
  }

  /** Filtering keeps the order of what stays: a list without duplicates just loses the one position. */
  lemma {:induction false} WithoutAt(tags: seq<string>, i: int)
    requires NoDup(tags) && 0 <= i < |tags|
    ensures Without(tags, tags[i]) == tags[..i] + tags[i + 1..]
    decreases |tags|
  {
    if i == 0 {
      assert tags[0] !in tags[1..];
      assert Without(tags, tags[0]) == Without(tags[1..], tags[0]);
    } else {
      assert NoDup(tags[1..]);
      WithoutAt(tags[1..], i - 1);
      assert tags[1..][i - 1] == tags[i];
      assert tags[0] != tags[i];
      assert tags[..i] == [tags[0]] + tags[1..][..i - 1];
      assert tags[i + 1..] == tags[1..][i..];
    }
  }

  lemma NoDupCons(x: string, s: seq<string>)
    requires NoDup(s) && x !in s
    ensures NoDup([x] + s)
  {
    forall i, j | 0 <= i < j < |[x] + s|
      ensures ([x] + s)[i] != ([x] + s)[j]
    {
      if i == 0 {
        assert ([x] + s)[j] == s[j - 1];
      }
    }
  }

  /** Filtering keeps a duplicate-free list duplicate-free. */
  lemma {:induction false} WithoutNoDup(tags: seq<string>, removed: string)
    requires NoDup(tags)
    ensures NoDup(Without(tags, removed))
    decreases |tags|
  {
    if tags != [] {
      var rest := Without(tags[1..], removed);
      assert NoDup(tags[1..]);
      WithoutNoDup(tags[1..], removed);
      if tags[0] != removed {
        assert tags[0] !in tags[1..];
        NoDupCons(tags[0], rest);
      }
    }
  }

  /** Removing a tag just added gives back the list before. */
  lemma RemoveAfterAdd(tags: seq<string>, tag: string)
    requires NoDup(tags) && Normalize(tag) != [] && Normalize(tag) !in tags
    ensures Without(AddedTags(tags, tag), Normalize(tag)) == tags
  {
    var r := AddedTags(tags, tag);
    assert NoDup(r) && r[|tags|] == Normalize(tag);
    WithoutAt(r, |tags|);
    assert r[..|tags|] == tags;
  }

  /** The candidates not yet selected, in order. */
  function Missing(candidates: seq<string>, tags: seq<string>): (r: seq<string>)
    ensures forall x :: x in r <==> x in candidates && x !in tags
    ensures NoDup(candidates) ==> NoDup(r)
    decreases |candidates|
  {
    if candidates == [] then []
    else (if candidates[0] in tags then [] else [candidates[0]]) + Missing(candidates[1..], tags)
  }

  /** Appending only missing elements of a duplicate-free list keeps a list duplicate-free. */
  lemma AppendMissingNoDup(tags: seq<string>, extra: seq<string>)
    requires NoDup(tags) && NoDup(extra) && forall x :: x in extra ==> x !in tags
    ensures NoDup(tags + extra)
  {
    forall i, j | 0 <= i < j < |tags + extra|
      ensures (tags + extra)[i] != (tags + extra)[j]
    {
      if j >= |tags| && i < |tags| {
        assert (tags + extra)[j] in extra;
        assert (tags + extra)[i] in tags;
      }
    }
  }

  /** The list after clicking a suggested tag: removed when selected, appended otherwise. */
  function ToggledTags(tags: seq<string>, tag: string): (r: seq<string>)
    ensures tag in r <==> tag !in tags
    ensures forall x :: x != tag ==> (x in r <==> x in tags)
    ensures tag !in tags ==> r == tags + [tag]
  {
    if tag in tags then Without(tags, tag) else tags + [tag]
  }

  /** Clicking an unselected suggestion twice gives back the list before. */
  lemma ToggleTwice(tags: seq<string>, tag: string)
    requires NoDup(tags) && tag !in tags
    ensures ToggledTags(ToggledTags(tags, tag), tag) == tags
  {
    var r := tags + [tag];
    assert NoDup(r);
    WithoutAt(r, |tags|);
    assert r[..|tags|] == tags;
  }

  function TitleError(title: string): (e: Option<string>)
    ensures e.None? <==> !Text.AllSpace(title) && |title| >= 10
  {
    if Text.Trim(title) == [] then Some("Title is required")
    else if |title| < 10 then Some("Title must be at least 10 characters")
    else None
  }

  function ContentError(content: string): (e: Option<string>)
    ensures e.None? <==> !Text.AllSpace(content) && |content| >= 20
  {
    if Text.Trim(content) == [] then Some("Question content is required")
    else if |content| < 20 then Some("Question content must be at least 20 characters")
    else None
  }

  function TagsError(tags: seq<string>): (e: Option<string>)
    ensures e.None? <==> |tags| >= 1
  {
    if |tags| == 0 then Some("At least one tag is required") else None
  }

  /** An error map with an entry for each field that has a message. */
  function ErrorMap(title: Option<string>, content: Option<string>, tags: Option<string>): (r: map<string, string>)
    ensures r.Keys <= {"title", "content", "tags"}
    ensures "title" in r <==> title.Some?
    ensures "content" in r <==> content.Some?
    ensures "tags" in r <==> tags.Some?
  {
    var e := FormState.Put(map[], "title", title);
    var e := FormState.Put(e, "content", content);
    FormState.Put(e, "tags", tags)
  }

  /** The error map `validateForm` builds: one entry per failing field. */
  function FormErrors(title: string, content: string, tags: seq<string>): (r: map<string, string>)
    ensures r.Keys <= {"title", "content", "tags"}
    ensures "title" in r <==> TitleError(title).Some?
    ensures "content" in r <==> ContentError(content).Some?
    ensures "tags" in r <==> TagsError(tags).Some?
  {
    ErrorMap(TitleError(title), ContentError(content), TagsError(tags))
  }

  /** The form passes exactly when the title and content are not blank and long enough and a tag is selected. */
  lemma FormValid(title: string, content: string, tags: seq<string>)
    ensures FormErrors(title, content, tags) == map[] <==>
      !Text.AllSpace(title) && |title| >= 10 && !Text.AllSpace(content) && |content| >= 20 && |tags| >= 1
  {
    var r := FormErrors(title, content, tags);
    if TitleError(title).Some? { assert "title" in r; }
    if ContentError(content).Some? { assert "content" in r; }
    if TagsError(tags).Some? { assert "tags" in r; }
  }

  /** The body of `validateForm`: `newErrors` filled in field by field. */
  method BuildErrors(title: string, content: string, tags: seq<string>) returns (newErrors: map<string, string>)
    ensures newErrors == FormErrors(title, content, tags)
  {
    newErrors := map[];
    newErrors := FormState.Put(newErrors, "title", TitleError(title));
    newErrors := FormState.Put(newErrors, "content", ContentError(content));
    newErrors := FormState.Put(newErrors, "tags", TagsError(tags));
  }

  /** A form that passes `validateForm` yields non-empty trimmed fields and at least one non-empty tag. */
  lemma PassingFormPayload(title: string, content: string, tags: seq<string>)
    requires FormErrors(title, content, tags) == map[] && [] !in tags
    ensures Text.Trim(title) != [] && Text.Trim(content) != [] && |tags| >= 1
    ensures forall k :: 0 <= k < |tags| ==> tags[k] != []
  {
    FormValid(title, content, tags);
  }

  /** What the page posts: the trimmed title and content with the selected tags. */
  datatype QuestionPayload = QuestionPayload(title: string, content: string, tags: seq<string>)

  class AskQuestionPage {
    var formData: map<string, string>
    var tags: seq<string>
    var tagInput: string
    var errors: map<string, string>
    var aiTags: seq<string>

    ghost predicate Valid()
      reads this`formData, this`tags, this`aiTags
    {
      && "title" in formData && "content" in formData
      && NoDup(tags) && [] !in tags
      && [] !in aiTags
    }

    constructor()
      ensures Valid()
      ensures formData == map["title" := "", "content" := ""] && tags == [] && tagInput == ""
      ensures errors == map[] && aiTags == []
    {
      formData := map["title" := "", "content" := ""];
      tags := [];
      tagInput := "";
      errors := map[];
      aiTags := [];
    }

    /** `handleInputChange`: the named field takes the value and only its error is cleared. */
    method HandleInputChange(name: string, value: string)
      requires Valid()
      modifies this`formData, this`errors
      ensures Valid()
      ensures formData == old(formData)[name := value]
      ensures errors == FormState.ClearError(old(errors), name)
    {
      formData := formData[name := value];
      errors := FormState.ClearError(errors, name);
    }

    method HandleTagInputChange(value: string)
      modifies this`tagInput
      ensures tagInput == value
    {
      tagInput := value;
    }

    /** `addTag`: a normalized, non-empty, new tag is appended, the input and the tags error cleared. */
    method AddTag(tag: string)
      requires Valid()
      modifies this`tags, this`tagInput, this`errors
      ensures Valid()
      ensures tags == AddedTags(old(tags), tag)
      ensures Normalize(tag) != [] && Normalize(tag) !in old(tags) ==> tagInput == "" && errors == old(errors)["tags" := ""]
      ensures Normalize(tag) == [] || Normalize(tag) in old(tags) ==> tagInput == old(tagInput) && errors == old(errors) && tags == old(tags)
    {
      var normalized := Normalize(tag);
      if normalized != [] && normalized !in tags {
        AppendTag(normalized);
      }
    }

    /** The accepted branch of `addTag`: the tag is appended, the input and the tags error cleared. */
    method AppendTag(t: string)
      requires Valid() && t != [] && t !in tags
      modifies this`tags, this`tagInput, this`errors
      ensures Valid()
      ensures tags == old(tags) + [t] && tagInput == "" && errors == old(errors)["tags" := ""]
    {
      tags := tags + [t];
      tagInput := "";
      errors := errors["tags" := ""];
    }

    /** `removeTag`: the tag leaves the list, the others keep their order. */
    method RemoveTag(tag: string)
      requires Valid()
      modifies this`tags
      ensures Valid()
      ensures tags == Without(old(tags), tag)
    {
      WithoutNoDup(tags, tag);
      tags := Without(tags, tag);
    }

    /** `generateTags`: the ten suggestions are shown and the first three selected when not already. */
    method GenerateTags()
      requires Valid()
      modifies this`aiTags, this`tags
      ensures Valid()
      ensures aiTags == DummyTags
      ensures tags == old(tags) + Missing(DummyTags[..AutoSelect], old(tags))
      ensures forall k :: 0 <= k < AutoSelect ==> DummyTags[k] in tags
    {
      aiTags := DummyTags;
      var autoSelected := Missing(DummyTags[..AutoSelect], tags);
      assert NoDup(DummyTags[..AutoSelect]);
      AppendMissingNoDup(tags, autoSelected);
      tags := tags + autoSelected;
    }

    /** A click on a suggested tag. */
    method ToggleAiTag(tag: string)
      requires Valid() && tag in aiTags
      modifies this`tags
      ensures Valid()
      ensures tags == ToggledTags(old(tags), tag)
    {
      if tag in tags {
        WithoutNoDup(tags, tag);
        tags := Without(tags, tag);
      } else {
        assert NoDup(tags + [tag]);
        tags := tags + [tag];
      }
    }

    /** `validateForm`: the error map is rebuilt field by field; the form passes when it is empty. */
    method ValidateForm() returns (ok: bool)
      requires Valid()
      modifies this`errors
      ensures Valid()
      ensures errors == FormErrors(formData["title"], formData["content"], tags)
      ensures ok <==> FormState.NoErrors(errors)
    {
      var newErrors := BuildErrors(formData["title"], formData["content"], tags);
      errors := newErrors;
      ok := |newErrors| == 0;
    }

    /** `handleSubmit`: nothing is posted unless the form passes; then the trimmed fields and the tags. */
    method Submit() returns (payload: Option<QuestionPayload>)
      requires Valid()
      modifies this`errors
      ensures Valid()
      ensures errors == FormErrors(formData["title"], formData["content"], tags)
      ensures payload.Some? <==> errors == map[]
      ensures payload.Some? ==>
        && payload.value == QuestionPayload(Text.Trim(formData["title"]), Text.Trim(formData["content"]), tags)
        && payload.value.title != [] && payload.value.content != [] && |payload.value.tags| >= 1
        && forall k :: 0 <= k < |payload.value.tags| ==> payload.value.tags[k] != []
    {
      var ok := ValidateForm();
      if !ok {
        return None;
      }
      PassingFormPayload(formData["title"], formData["content"], tags);
      payload := Some(QuestionPayload(Text.Trim(formData["title"]), Text.Trim(formData["content"]), tags));
    }
  }
}
