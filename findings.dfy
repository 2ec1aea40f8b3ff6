/**
  Where the client pages and the server disagree. Each disagreement has the
  behaviour as written next to a corrected one, with what the correction gains.
*/
module Findings {
  import opened Wrappers
  import Text
  import Validation
  import QuestionValidation
  import VoteLedger
  import QuestionModel
  import QuestionController
  import QuestionDetail
  import AskQuestion

  /**
    The detail page sends the click's kind, "up" or "down", as the vote type; both
    vote rule sets of the server refuse it, so no vote from the page is recorded.
  */
  lemma LowercaseVoteRejected(kind: string)
    requires kind == "up" || kind == "down"
    ensures QuestionValidation.ValidateVoteQuestion(Some(kind)).ValidationFailed?
    ensures Validation.ValidateVote(Some(kind)).ValidationFailed?
  {
  }

  /** Sending the server's spelling, every click passes both vote rule sets. */
  lemma WireVoteAccepted(kind: string)
    ensures QuestionValidation.ValidateVoteQuestion(Some(QuestionDetail.WireVoteType(kind))).Next?
    ensures Validation.ValidateVote(Some(QuestionDetail.WireVoteType(kind))).Next?
  {
  }

  /** The server's net count of a question: upvotes minus downvotes. */
  function NetVotes(l: VoteLedger.Ledger, questionId: string): int
  {
    VoteLedger.CountVotes(l, questionId, VoteLedger.Up) - VoteLedger.CountVotes(l, questionId, VoteLedger.Down)
  }

  /**
    One click on the question's vote button, end to end: the page sends
    `sentType`, the vote route's rules check it, the model records the vote when
    they pass, and the page adds its ±1 for `kind` when the call succeeded.
  */
  method QuestionClick(page: QuestionDetail.QuestionDetailPage, store: QuestionModel.QuestionStore, userId: string,
                       kind: string, sentType: string)
    returns (ok: bool)
    requires store.Valid() && page.question.id in store.questions
    modifies page`question, page`answers, store`votes
    ensures store.Valid()
    ensures ok <==> sentType == "UP" || sentType == "DOWN"
    ensures ok ==> store.votes == VoteLedger.Upsert(old(store.votes), userId, old(page.question.id), QuestionController.VoteTypeOf(sentType))
    ensures !ok ==> store.votes == old(store.votes)
    ensures ok ==> page.question == old(page.question).(votes := old(page.question).votes + QuestionDetail.Delta(kind))
    ensures !ok ==> page.question == old(page.question)
    ensures page.answers == old(page.answers)
  {
    var questionId := page.question.id;
    ok := QuestionValidation.ValidateVoteQuestion(Some(sentType)).Next?;
    if ok {
      var r := store.VoteQuestion(questionId, userId, QuestionController.VoteTypeOf(sentType));
    }
    var sent := page.HandleVote(kind, questionId, true, true, ok);
  }

  /**
    A click as the page is written: it sends its kind, "up" or "down", the rules
    refuse it, nothing is recorded and the shown count does not move.
  */
  method ClickAsWritten(page: QuestionDetail.QuestionDetailPage, store: QuestionModel.QuestionStore, userId: string, kind: string)
    requires kind == "up" || kind == "down"
    requires store.Valid() && page.question.id in store.questions
    modifies page`question, page`answers, store`votes
    ensures store.Valid()
    ensures store.votes == old(store.votes)
    ensures page.question == old(page.question) && page.answers == old(page.answers)
  {
    var ok := QuestionClick(page, store, userId, kind, kind);
  }

  /**
    The ±1 display once the vote type is sent in the server's spelling: two
    upvotes by one user leave the ledger as one upvote leaves it, but the page's
    count rises by two.
  */
  method RepeatedUpvoteWireFixed(page: QuestionDetail.QuestionDetailPage, store: QuestionModel.QuestionStore, userId: string)
    requires store.Valid() && page.question.id in store.questions
    modifies page`question, page`answers, store`votes
    ensures store.Valid()
    ensures page.question.id == old(page.question.id)
    ensures store.votes == VoteLedger.Upsert(old(store.votes), userId, page.question.id, VoteLedger.Up)
    ensures page.question.votes == old(page.question.votes) + 2
  {
    var wire := QuestionDetail.WireVoteType("up");
    var ok := QuestionClick(page, store, userId, "up", wire);
    ok := QuestionClick(page, store, userId, "up", wire);
    VoteLedger.UpsertIdempotent(old(store.votes), userId, page.question.id, VoteLedger.Up);
  }

  /**
    One click with the correction: the server's vote type is sent, passes the
    rules, is recorded, and the page shows the server's net count.
  */
  method SyncedClick(page: QuestionDetail.QuestionDetailPage, store: QuestionModel.QuestionStore, userId: string, kind: string)
    requires store.Valid() && page.question.id in store.questions
    modifies page`question, store`votes
    ensures store.Valid()
    ensures page.question.id == old(page.question.id)
    ensures store.votes == VoteLedger.Upsert(old(store.votes), userId, page.question.id,
                                             if kind == "up" then VoteLedger.Up else VoteLedger.Down)
    ensures page.question.votes == NetVotes(store.votes, page.question.id)
  {
    var questionId := page.question.id;
    var wire := QuestionDetail.WireVoteType(kind);
    WireVoteAccepted(kind);
    assert QuestionValidation.ValidateVoteQuestion(Some(wire)).Next?;
    var r := store.VoteQuestion(questionId, userId, QuestionController.VoteTypeOf(wire));
    var counts := if r.Ok? then Some((r.value.upvotes, r.value.downvotes)) else None;
    var sent := page.HandleQuestionVoteSynced(kind, true, counts);
  }

  /** With the correction, a repeated click leaves the shown count where the first click put it. */
  method RepeatedUpvoteCorrected(page: QuestionDetail.QuestionDetailPage, store: QuestionModel.QuestionStore, userId: string)
    returns (afterFirst: int, afterSecond: int)
    requires store.Valid() && page.question.id in store.questions
    modifies page`question, store`votes
    ensures store.Valid()
    ensures afterFirst == afterSecond == page.question.votes
    ensures afterSecond == NetVotes(store.votes, page.question.id)
  {
    SyncedClick(page, store, userId, "up");
    afterFirst := page.question.votes;
    ghost var votesAfterFirst := store.votes;
    SyncedClick(page, store, userId, "up");
    afterSecond := page.question.votes;
    VoteLedger.UpsertIdempotent(old(store.votes), userId, page.question.id, VoteLedger.Up);
    assert store.votes == votesAfterFirst;
  }

  function StrItems(tags: seq<string>): (items: seq<QuestionValidation.TagItem>)
    ensures |items| == |tags|
    ensures forall k :: 0 <= k < |tags| ==> items[k] == QuestionValidation.StrItem(tags[k])
  {
    seq(|tags|, k requires 0 <= k < |tags| => QuestionValidation.StrItem(tags[k]))
  }

  /** The body the Ask page posts as written: its text under "content", which the create rules do not read. */
  function SentBody(p: AskQuestion.QuestionPayload): (b: QuestionValidation.QuestionBody)
    ensures b.description.None?
  {
    QuestionValidation.QuestionBody(Some(p.title), None, Some(QuestionValidation.ArrayOf(StrItems(p.tags))))
  }

  /** Every question the Ask page posts as written is refused by the create rules for its missing description. */
  lemma AskPayloadRejected(p: AskQuestion.QuestionPayload)
    ensures QuestionValidation.ValidateCreateQuestion(SentBody(p)).ValidationFailed?
    ensures QuestionValidation.DescriptionErrors(SentBody(p).description) != []
  {
  }

  /** The body with the text posted under "description". */
  function CorrectedBody(p: AskQuestion.QuestionPayload): (b: QuestionValidation.QuestionBody)
    ensures b.title == Some(p.title) && b.description == Some(p.content)
    ensures b.tags == Some(QuestionValidation.ArrayOf(StrItems(p.tags)))
  {
    QuestionValidation.QuestionBody(Some(p.title), Some(p.content), Some(QuestionValidation.ArrayOf(StrItems(p.tags))))
  }

  /**
    A payload as the Ask page's submit produces it (trimmed title, tags non-empty and
    each non-empty) that meets the server's length bounds is accepted unchanged.
  */
  lemma CorrectedPayloadAccepted(p: AskQuestion.QuestionPayload)
    requires Text.IsTrimmed(p.title) && 10 <= |p.title| <= 150 && |p.content| >= 20
    requires |p.tags| >= 1 && [] !in p.tags
    ensures QuestionValidation.ValidateCreateQuestion(CorrectedBody(p)) == Validation.Next(CorrectedBody(p))
  {
    var b := CorrectedBody(p);
    CorrectedTitleOk(p.title);
    CorrectedTagsOk(p.tags);
    AcceptedAsIs(b);
  }

  /** A body whose fields all pass and whose title is already trimmed comes through the rules unchanged. */
  lemma AcceptedAsIs(b: QuestionValidation.QuestionBody)
    requires b.title.Some? && QuestionValidation.SanitizedTitle(b.title) == b.title.value
    requires QuestionValidation.TitleOk(b.title) && QuestionValidation.DescriptionOk(b.description)
    requires QuestionValidation.TagsOk(b.tags)
    ensures QuestionValidation.ValidateCreateQuestion(b) == Validation.Next(b)
  {
    var r := QuestionValidation.ValidateCreateQuestion(b);
    assert r.value == QuestionValidation.Sanitized(b, false) == b;
  }

  /** A trimmed title within the length bounds passes the title rule and is its own sanitised form. */
  lemma CorrectedTitleOk(title: string)
    requires Text.IsTrimmed(title) && 10 <= |title| <= 150
    ensures QuestionValidation.SanitizedTitle(Some(title)) == title
    ensures QuestionValidation.TitleOk(Some(title))
  {
    Text.TrimOfTrimmed(title);
  }

  /** A non-empty list of non-empty tags, posted as strings, passes the tags rule. */
  lemma CorrectedTagsOk(tags: seq<string>)
    requires |tags| >= 1 && [] !in tags
    ensures QuestionValidation.TagsOk(Some(QuestionValidation.ArrayOf(StrItems(tags))))
  {
    var items := StrItems(tags);
    forall k | 0 <= k < |items|
      ensures items[k].StrItem? && items[k].s != []
    {
      assert tags[k] in tags;
    }
  }
}
