/**
  `AnswerModel` (backend/src/models/answerModel.js): the answer table, kept in
  creation order, and the answer-vote table.
*/
module AnswerModel {
  import opened Wrappers
  import opened VoteLedger

  datatype Answer = Answer(id: Id, content: string, questionId: Id, userId: Id, createdAt: nat)

  /** What `voteAnswer` returns. */
  datatype VoteResult = VoteResult(answerId: Id, upvotes: nat, downvotes: nat, userVote: VoteType)

  const AnswerNotFound := "Answer not found"

  /** `orderBy: { createdAt: "asc" }` holds of a list. */
  predicate OldestFirst(rows: seq<Answer>)
  {
    forall i, j :: 0 <= i < j < |rows| ==> rows[i].createdAt <= rows[j].createdAt
  }

  predicate DistinctIds(rows: seq<Answer>)
  {
    forall i, j :: 0 <= i < j < |rows| ==> rows[i].id != rows[j].id
  }

  function Ids(rows: seq<Answer>): set<Id>
  {
    set a | a in rows :: a.id
  }

  /** `findUnique({ where: { id } })`: the position of the row with that id. */
  function Find(rows: seq<Answer>, id: Id): (r: Option<nat>)
    ensures r.Some? ==> r.value < |rows| && rows[r.value].id == id
    ensures r.None? <==> id !in Ids(rows)
    decreases |rows|
  {
    if rows == [] then None
    else if rows[0].id == id then Some(0)
    else
      var rest := Find(rows[1..], id);
      assert Ids(rows) == Ids(rows[1..]) + {rows[0].id} by {
        assert rows == [rows[0]] + rows[1..];
      }
      if rest.Some? then Some(rest.value + 1) else None
  }

  /** `findMany({ where: { questionId }, orderBy: { createdAt: "asc" } })` over the table. */
  function AnswersOf(rows: seq<Answer>, questionId: Id): (r: seq<Answer>)
    ensures forall a :: a in r <==> a in rows && a.questionId == questionId
    ensures |r| <= |rows|
    decreases |rows|
  {
    if rows == [] then []
    else
      var rest := AnswersOf(rows[1..], questionId);
      assert forall a :: a in rows <==> a == rows[0] || a in rows[1..] by {
        assert rows == [rows[0]] + rows[1..];
      }
      if rows[0].questionId == questionId then [rows[0]] + rest else rest
  }

  /** An answer no later than every answer of an oldest-first list can go in front of it. */
  lemma ConsOldestFirst(a: Answer, rows: seq<Answer>)
    requires OldestFirst(rows)
    requires forall b :: b in rows ==> a.createdAt <= b.createdAt
    ensures OldestFirst([a] + rows)
  {
    var r := [a] + rows;
    forall i, j | 0 <= i < j < |r| ensures r[i].createdAt <= r[j].createdAt {
      assert r[j] == rows[j - 1];
      if i > 0 {
        assert r[i] == rows[i - 1];
      }
    }
  }

  /** Selecting one question's answers keeps them oldest first. */
  lemma {:induction false} AnswersOfOldestFirst(rows: seq<Answer>, questionId: Id)
    requires OldestFirst(rows)
    ensures OldestFirst(AnswersOf(rows, questionId))
    decreases |rows|
  {
    if rows != [] {
      var tail := rows[1..];
      AnswersOfOldestFirst(tail, questionId);
      if rows[0].questionId == questionId {
        var rest := AnswersOf(tail, questionId);
        forall b | b in rest ensures rows[0].createdAt <= b.createdAt {
          var k :| 0 <= k < |tail| && tail[k] == b;
          assert rows[k + 1] == b;
        }
        ConsOldestFirst(rows[0], rest);
      }
    }
  }

  /** Position `k` of a list with position `i` removed. */
  lemma RemoveAtIndex(rows: seq<Answer>, i: nat, k: nat)
    requires i < |rows| && k < |rows| - 1
    ensures (rows[..i] + rows[i + 1..])[k] == rows[if k < i then k else k + 1]
  {
  }

  /** Removing one row keeps the table's order and its ids distinct. */
  lemma RemoveAtKeepsOrder(rows: seq<Answer>, i: nat)
    requires i < |rows| && OldestFirst(rows) && DistinctIds(rows)
    ensures OldestFirst(rows[..i] + rows[i + 1..]) && DistinctIds(rows[..i] + rows[i + 1..])
  {
    var r := rows[..i] + rows[i + 1..];
    forall p, q | 0 <= p < q < |r| ensures r[p].createdAt <= r[q].createdAt && r[p].id != r[q].id {
      RemoveAtIndex(rows, i, p);
      RemoveAtIndex(rows, i, q);
    }
  }

  /** Removing one row of a table with distinct ids removes exactly that row's id. */
  lemma RemoveAtIds(rows: seq<Answer>, i: nat)
    requires i < |rows| && DistinctIds(rows)
    ensures Ids(rows[..i] + rows[i + 1..]) == Ids(rows) - {rows[i].id}
  {
    RemoveAtIdsShrink(rows, i);
    RemoveAtIdsKeep(rows, i);
  }

  /** Every id left after the removal was in the table and is not the removed row's. */
  lemma RemoveAtIdsShrink(rows: seq<Answer>, i: nat)
    requires i < |rows| && DistinctIds(rows)
    ensures Ids(rows[..i] + rows[i + 1..]) <= Ids(rows) - {rows[i].id}
  {
    var r := rows[..i] + rows[i + 1..];
    forall x | x in Ids(r) ensures x in Ids(rows) && x != rows[i].id {
      var a :| a in r && a.id == x;
      var k :| 0 <= k < |r| && r[k] == a;
      RemoveAtIndex(rows, i, k);
      var k' := if k < i then k else k + 1;
      assert rows[k'] == a && k' != i;
    }
  }

  /** Every other id of the table is still there after the removal. */
  lemma RemoveAtIdsKeep(rows: seq<Answer>, i: nat)
    requires i < |rows|
    ensures Ids(rows) - {rows[i].id} <= Ids(rows[..i] + rows[i + 1..])
  {
    var r := rows[..i] + rows[i + 1..];
    forall x | x in Ids(rows) && x != rows[i].id ensures x in Ids(r) {
      var a :| a in rows && a.id == x;
      var k :| 0 <= k < |rows| && rows[k] == a;
      var k' := if k < i then k else k - 1;
      RemoveAtIndex(rows, i, k');
      assert r[k'] == a;
    }
  }

  /** Replacing a row by one with the same id and time keeps the order, the ids and their distinctness. */
  lemma ReplaceKeepsTable(rows: seq<Answer>, i: nat, a: Answer)
    requires i < |rows| && a.id == rows[i].id && a.createdAt == rows[i].createdAt
    requires OldestFirst(rows) && DistinctIds(rows)
    ensures OldestFirst(rows[i := a]) && DistinctIds(rows[i := a])
    ensures Ids(rows[i := a]) == Ids(rows)
  {
    var r := rows[i := a];
    forall x | x in Ids(rows) ensures x in Ids(r) {
      var b :| b in rows && b.id == x;
      var k :| 0 <= k < |rows| && rows[k] == b;
      assert r[k] in r && r[k].id == x;
    }
    forall x | x in Ids(r) ensures x in Ids(rows) {
      var b :| b in r && b.id == x;
      var k :| 0 <= k < |r| && r[k] == b;
      assert rows[k] in rows && rows[k].id == x;
    }
  }

  /** The answer table and the answer-vote table. */
  class AnswerStore {
    var answers: seq<Answer>
    var votes: Ledger

    /** Ids are unique, rows are in creation order, and every vote names an existing answer. */
    ghost predicate Valid()
      reads this
    {
      && DistinctIds(answers)
      && OldestFirst(answers)
      && (forall k :: k in votes ==> k.1 in Ids(answers))
    }

    constructor ()
      ensures Valid() && answers == [] && votes == map[]
    {
      answers, votes := [], map[];
    }

    /** `createAnswer`: a new row stamped with the current time, which no earlier row exceeds. */
    method CreateAnswer(id: Id, content: string, questionId: Id, userId: Id, now: nat) returns (a: Answer)
      requires Valid()
      requires id !in Ids(answers)
      requires forall b :: b in answers ==> b.createdAt <= now
      modifies this`answers
      ensures Valid()
      ensures a == Answer(id, content, questionId, userId, now)
      ensures answers == old(answers) + [a]
    {
      a := Answer(id, content, questionId, userId, now);
      assert forall k :: 0 <= k < |answers| ==> answers[k] in answers;
      answers := answers + [a];
      assert Ids(answers) == Ids(old(answers)) + {id};
    }

    /** `getAnswersByQuestionId`: that question's answers, oldest first. */
    function GetAnswersByQuestionId(questionId: Id): (r: seq<Answer>)
      reads this
      requires Valid()
      ensures forall a :: a in r <==> a in answers && a.questionId == questionId
      ensures OldestFirst(r)
    {
      AnswersOfOldestFirst(answers, questionId);
      AnswersOf(answers, questionId)
    }

    /** `updateAnswer`: null for an unknown id; otherwise only that row's content changes. */
    method UpdateAnswer(id: Id, content: string) returns (r: Option<Answer>)
      requires Valid()
      modifies this`answers
      ensures Valid()
      ensures id !in Ids(old(answers)) ==> r == None && answers == old(answers)
      ensures id in Ids(old(answers)) ==>
        var i := Find(old(answers), id).value;
        && r == Some(old(answers)[i].(content := content))
        && answers == old(answers)[i := r.value]
    {
      var i := Find(answers, id);
      if i.None? {
        return None;
      }
      var a := answers[i.value].(content := content);
      ReplaceKeepsTable(answers, i.value, a);
      answers := answers[i.value := a];
      r := Some(a);
    }

    /** `deleteAnswer`: null for an unknown id; otherwise the row and its votes are removed. */
    method DeleteAnswer(id: Id) returns (r: Option<Answer>)
      requires Valid()
      modifies this
      ensures Valid()
      ensures id !in Ids(old(answers)) ==> r == None && answers == old(answers) && votes == old(votes)
      ensures id in Ids(old(answers)) ==>
        var i := Find(old(answers), id).value;
        && r == Some(old(answers)[i])
        && answers == old(answers)[..i] + old(answers)[i + 1..]
        && votes == (map k | k in old(votes) && k.1 != id :: old(votes)[k])
    {
      var i := Find(answers, id);
      if i.None? {
        return None;
      }
      r := Some(answers[i.value]);
      RemoveRow(i.value);
    }

    /** The found branch of `deleteAnswer`: drop row `i` and every vote on it. */
    method RemoveRow(i: nat)
      requires Valid() && i < |answers|
      modifies this
      ensures Valid()
      ensures answers == old(answers)[..i] + old(answers)[i + 1..]
      ensures votes == map k | k in old(votes) && k.1 != old(answers)[i].id :: old(votes)[k]
    {
      var id := answers[i].id;
      var rest := answers[..i] + answers[i + 1..];
      var kept := map k | k in votes && k.1 != id :: votes[k];
      RemoveAtKeepsOrder(answers, i);
      RemoveAtIds(answers, i);
      assert forall k :: k in kept ==> k.1 in Ids(rest);
      answers, votes := rest, kept;
    }

    /**
      `voteAnswer`: "Answer not found" for an unknown answer; otherwise the
      (user, answer) row is created or overwritten and the answer's UP and DOWN
      rows are counted.
    */
    method VoteAnswer(answerId: Id, userId: Id, voteType: VoteType) returns (r: Result<VoteResult, string>)
      requires Valid()
      modifies this`votes
      ensures Valid()
      ensures answerId !in Ids(answers) ==> r == Err(AnswerNotFound) && votes == old(votes)
      ensures answerId in Ids(answers) ==>
        && votes == Upsert(old(votes), userId, answerId, voteType)
        && r == Ok(VoteResult(answerId, CountVotes(votes, answerId, Up), CountVotes(votes, answerId, Down), voteType))
      ensures r.Ok? ==> r.value.upvotes + r.value.downvotes == |Voters(votes, answerId)|
    {
      if Find(answers, answerId).None? {
        return Err(AnswerNotFound);
      }
      votes := Upsert(votes, userId, answerId, voteType);
      var upvotes := CountVotes(votes, answerId, Up);
      var downvotes := CountVotes(votes, answerId, Down);
      UpPlusDownIsVoters(votes, answerId);
      r := Ok(VoteResult(answerId, upvotes, downvotes, voteType));
    }
  }
}
