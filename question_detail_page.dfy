/**
  The question detail page (frontend/src/pages/QuestionDetailPage.jsx): the shown
  question, its answer list and the answer being typed, with the vote, accept,
  submit and AI-answer handlers. Whether a server call succeeds is a parameter.
*/
module QuestionDetail {
  import opened Wrappers
  import Text

  datatype DisplayAnswer = DisplayAnswer(id: string, content: string, author: string, votes: int, isAccepted: bool, isAI: bool)

  datatype DisplayQuestion = DisplayQuestion(id: string, votes: int, isOwner: bool)

  /** The change a click makes to a shown count: +1 for "up", -1 for anything else. */
  function Delta(kind: string): (d: int)
    ensures d == 1 <==> kind == "up"
    ensures d == 1 || d == -1
  {
    if kind == "up" then 1 else -1
  }

  /** `answers.map(a => a.id === itemId ? {...a, votes: a.votes + delta} : a)`. */
  function VoteAnswers(answers: seq<DisplayAnswer>, itemId: string, delta: int): (r: seq<DisplayAnswer>)
    ensures |r| == |answers|
    ensures forall k :: 0 <= k < |r| && answers[k].id != itemId ==> r[k] == answers[k]
    ensures forall k :: 0 <= k < |r| && answers[k].id == itemId ==> r[k] == answers[k].(votes := answers[k].votes + delta)
    decreases |answers|
  {
    if answers == [] then []
    else
      var a := answers[0];
      [if a.id == itemId then a.(votes := a.votes + delta) else a] + VoteAnswers(answers[1..], itemId, delta)
  }

  /** A vote followed by the opposite vote on the same answer restores the list. */
  lemma VoteAnswersUndo(answers: seq<DisplayAnswer>, itemId: string, delta: int)
    ensures VoteAnswers(VoteAnswers(answers, itemId, delta), itemId, -delta) == answers
  {
    var r := VoteAnswers(VoteAnswers(answers, itemId, delta), itemId, -delta);
    assert forall k :: 0 <= k < |r| ==> r[k] == answers[k];
  }

  /** `answers.map(a => ({...a, isAccepted: a.id === answerId}))`. */
  function AcceptOnly(answers: seq<DisplayAnswer>, answerId: string): (r: seq<DisplayAnswer>)
    ensures |r| == |answers|
    ensures forall k :: 0 <= k < |r| ==> r[k] == answers[k].(isAccepted := answers[k].id == answerId)
    decreases |answers|
  {
    if answers == [] then []
    else [answers[0].(isAccepted := answers[0].id == answerId)] + AcceptOnly(answers[1..], answerId)
  }

  predicate DistinctIds(answers: seq<DisplayAnswer>)
  {
    forall i, j :: 0 <= i < j < |answers| ==> answers[i].id != answers[j].id
  }

  /** With distinct ids, accepting leaves exactly one accepted answer when the id is listed, and none otherwise. */
  lemma AcceptOnlyOne(answers: seq<DisplayAnswer>, answerId: string)
    requires DistinctIds(answers)
    ensures var r := AcceptOnly(answers, answerId);
      forall i, j :: 0 <= i < j < |r| ==> !(r[i].isAccepted && r[j].isAccepted)
    ensures var r := AcceptOnly(answers, answerId);
      (exists k :: 0 <= k < |r| && r[k].isAccepted) <==> (exists k :: 0 <= k < |answers| && answers[k].id == answerId)
  {
    var r := AcceptOnly(answers, answerId);
    if exists k :: 0 <= k < |answers| && answers[k].id == answerId {
      var k :| 0 <= k < |answers| && answers[k].id == answerId;
      assert r[k].isAccepted;
    }
  }

  /** Accepting the same answer again changes nothing. */
  lemma AcceptOnlyIdempotent(answers: seq<DisplayAnswer>, answerId: string)
    ensures AcceptOnly(AcceptOnly(answers, answerId), answerId) == AcceptOnly(answers, answerId)
  {
    var r := AcceptOnly(answers, answerId);
    assert forall k :: 0 <= k < |r| ==> AcceptOnly(r, answerId)[k] == r[k];
  }

  const AiAnswerText := "This is an AI-generated answer: To implement JWT authentication in React, use a library like jsonwebtoken on the backend and store the token in HttpOnly cookies or localStorage. On the frontend, send the token with each request and protect routes using context or hooks."

  /** The answer `generateAIAnswer` adds; `now` stands for `Date.now()`. */
  function AiAnswer(now: nat): (a: DisplayAnswer)
    ensures a.isAI && a.votes == 0 && !a.isAccepted
    ensures a.id == "ai-" + Text.DecimalText(now)
  {
    DisplayAnswer("ai-" + Text.DecimalText(now), AiAnswerText, "AI User", 0, false, true)
  }

  /** The vote type the server's rules accept for a click: "UP" for "up", "DOWN" otherwise. */
  function WireVoteType(kind: string): (w: string)
    ensures w == "UP" || w == "DOWN"
    ensures w == "UP" <==> kind == "up"
  {
    if kind == "up" then "UP" else "DOWN"
  }

  class QuestionDetailPage {
    var question: DisplayQuestion
    var answers: seq<DisplayAnswer>
    var newAnswer: string

    /** The page once the question and its answers are loaded. */
    constructor(q: DisplayQuestion, loaded: seq<DisplayAnswer>)
      ensures question == q && answers == loaded && newAnswer == ""
    {
      question := q;
      answers := loaded;
      newAnswer := "";
    }

    /**
      `handleVote` as written: nothing happens without a signed-in user; otherwise the
      click's kind is sent as is and, once the call succeeds, the shown count moves by one.
    */
    method HandleVote(kind: string, itemId: string, isQuestion: bool, isAuthenticated: bool, apiOk: bool)
      returns (sent: Option<string>)
      modifies this`question, this`answers
      ensures sent.Some? <==> isAuthenticated
      ensures sent.Some? ==> sent.value == kind
      ensures !isAuthenticated || !apiOk ==> question == old(question) && answers == old(answers)
      ensures isAuthenticated && apiOk && isQuestion ==>
        question == old(question).(votes := old(question).votes + Delta(kind)) && answers == old(answers)
      ensures isAuthenticated && apiOk && !isQuestion ==>
        answers == VoteAnswers(old(answers), itemId, Delta(kind)) && question == old(question)
    {
      if !isAuthenticated {
        return None;
      }
      sent := Some(kind);
      if apiOk {
        if isQuestion {
          question := question.(votes := question.votes + Delta(kind));
        } else {
          answers := VoteAnswers(answers, itemId, Delta(kind));
        }
      }
    }

    /**
      A question vote that sends the server's vote type and shows the server's count
      (upvotes - downvotes) instead of adding to the shown one. `counts` is what the
      server returned, None when the call failed.
    */
    method HandleQuestionVoteSynced(kind: string, isAuthenticated: bool, counts: Option<(nat, nat)>)
      returns (sent: Option<string>)
      modifies this`question
      ensures sent.Some? <==> isAuthenticated
      ensures sent.Some? ==> sent.value == WireVoteType(kind)
      ensures !isAuthenticated || counts.None? ==> question == old(question)
      ensures isAuthenticated && counts.Some? ==>
        question == old(question).(votes := counts.value.0 - counts.value.1)
    {
      if !isAuthenticated {
        return None;
      }
      sent := Some(WireVoteType(kind));
      if counts.Some? {
        question := question.(votes := counts.value.0 - counts.value.1);
      }
    }

    /** `handleAcceptAnswer`: after a successful call exactly the answers with that id are accepted. */
    method HandleAcceptAnswer(answerId: string, apiOk: bool)
      modifies this`answers
      ensures apiOk ==> answers == AcceptOnly(old(answers), answerId)
      ensures !apiOk ==> answers == old(answers)
    {
      if apiOk {
        answers := AcceptOnly(answers, answerId);
      }
    }

    /**
      `handleSubmitAnswer`: a blank answer is refused without a call; otherwise the
      text is posted and, when the server returns the new id, the answer is put first
      and the input cleared. `response` is the new id or the failure.
    */
    method HandleSubmitAnswer(response: Result<string, string>, authorName: string)
      returns (posted: Option<string>)
      modifies this`answers, this`newAnswer
      ensures posted.None? <==> Text.AllSpace(old(newAnswer))
      ensures posted.Some? ==> posted.value == old(newAnswer)
      ensures posted.None? || response.Err? ==> answers == old(answers) && newAnswer == old(newAnswer)
      ensures posted.Some? && response.Ok? ==>
        && answers == [DisplayAnswer(response.value, old(newAnswer), authorName, 0, false, false)] + old(answers)
        && newAnswer == ""
    {
      if Text.Trim(newAnswer) == [] {
        return None;
      }
      posted := Some(newAnswer);
      if response.Ok? {
        answers := [DisplayAnswer(response.value, newAnswer, authorName, 0, false, false)] + answers;
        newAnswer := "";
      }
    }

    /** `generateAIAnswer`: only the question's owner gets the AI answer, put first. */
    method GenerateAIAnswer(now: nat)
      modifies this`answers
      ensures !question.isOwner ==> answers == old(answers)
      ensures question.isOwner ==> answers == [AiAnswer(now)] + old(answers)
      ensures question.isOwner ==> |answers| == |old(answers)| + 1 && answers[0].isAI && answers[1..] == old(answers)
    {
      if !question.isOwner {
        return;
      }
      answers := [AiAnswer(now)] + answers;
    }
  }
}
