/**
  `QuestionModel` (backend/src/models/questionModel.js): the question table, the
  tag table, the question-tag link table and the question-vote table, with the
  operations that change them, plus the paging arithmetic of `getAllQuestions`.
*/
module QuestionModel {
  import opened Wrappers
  import opened VoteLedger

  datatype Question = Question(id: Id, title: string, description: string, userId: Id)

  /** What `voteQuestion` returns. */
  datatype VoteResult = VoteResult(questionId: Id, upvotes: nat, downvotes: nat, userVote: VoteType)

  /** The `pagination` block `getAllQuestions` returns. */
  datatype Pagination = Pagination(page: int, limit: int, total: nat, pages: nat)

  const QuestionNotFound := "Question not found"

  /** Rows skipped before the requested page. */
  function Skip(page: int, limit: int): nat
    requires page >= 1 && limit >= 1
  {
    (page - 1) * limit
  }

  /** `Math.ceil(total / limit)`: the fewest pages of `limit` rows that hold `total` rows. */
  function Pages(total: nat, limit: int): (r: nat)
    requires limit >= 1
    ensures total <= r * limit
    ensures r == 0 || (r - 1) * limit < total
  {
    (total + limit - 1) / limit
  }

  /** `findMany({ skip, take: limit })` over the matching rows, already filtered and ordered. */
  function PageOf(rows: seq<Question>, page: int, limit: int): (r: seq<Question>)
    requires page >= 1 && limit >= 1
    ensures |r| <= limit
    ensures Skip(page, limit) <= |rows| ==> |r| == if |rows| - Skip(page, limit) < limit then |rows| - Skip(page, limit) else limit
    ensures forall i :: 0 <= i < |r| ==> Skip(page, limit) + i < |rows| && r[i] == rows[Skip(page, limit) + i]
  {
    var skip := Skip(page, limit);
    if skip >= |rows| then []
    else if skip + limit <= |rows| then rows[skip..skip + limit]
    else rows[skip..]
  }

  /** The questions and pagination block of `getAllQuestions`. */
  function GetAllQuestions(rows: seq<Question>, page: int, limit: int): (r: (seq<Question>, Pagination))
    requires page >= 1 && limit >= 1
    ensures r.0 == PageOf(rows, page, limit)
    ensures |r.0| <= limit
    ensures r.1 == Pagination(page, limit, |rows|, Pages(|rows|, limit))
    ensures page <= r.1.pages ==> r.0 != []
  {
    var pages := Pages(|rows|, limit);
    assert page <= pages ==> (page - 1) * limit <= (pages - 1) * limit;
    (PageOf(rows, page, limit), Pagination(page, limit, |rows|, pages))
  }

  /** Every matching row is listed on exactly the page `i / limit + 1`, which is one of the `pages`. */
  lemma RowOnPage(rows: seq<Question>, limit: int, i: nat)
    requires limit >= 1 && i < |rows|
    ensures var p := i / limit + 1;
            1 <= p <= Pages(|rows|, limit)
            && Skip(p, limit) <= i < Skip(p, limit) + limit
            && PageOf(rows, p, limit)[i - Skip(p, limit)] == rows[i]
  {
    var q := i / limit;
    DivBounds(i, limit);
    var pages := Pages(|rows|, limit);
    if pages <= q {
      MulMonotone(pages, q, limit);
      assert false;
    }
    var skip := Skip(q + 1, limit);
    assert skip == q * limit;
    assert i - skip < |PageOf(rows, q + 1, limit)|;
  }

  /** Euclidean division places `i` in the block of `limit` that starts at `(i / limit) * limit`. */
  lemma DivBounds(i: nat, limit: int)
    requires limit >= 1
    ensures (i / limit) * limit <= i < (i / limit) * limit + limit
  {
  }

  lemma MulMonotone(a: int, b: int, c: nat)
    requires a <= b
    ensures a * c <= b * c
  {
  }

  /** The distinct names of a tag list. */
  function NameSet(names: seq<string>): set<string>
  {
    set j | 0 <= j < |names| :: names[j]
  }

  /** One question-tag link per tag name. */
  function Links(id: Id, names: seq<string>): set<(Id, string)>
  {
    set j | 0 <= j < |names| :: (id, names[j])
  }

  /** The four tables `questionModel.js` writes. Tags are identified by their unique name. */
  class QuestionStore {
    var questions: map<Id, Question>
    var tags: set<string>
    var questionTags: set<(Id, string)>
    var votes: Ledger

    /** Rows refer to existing rows: the foreign keys the schema enforces. */
    ghost predicate Valid()
      reads this
    {
      && (forall id :: id in questions ==> questions[id].id == id)
      && (forall link :: link in questionTags ==> link.0 in questions && link.1 in tags)
      && (forall k :: k in votes ==> k.1 in questions)
    }

    /** The tag names linked to a question. */
    ghost function TagsOf(id: Id): set<string>
      reads this
    {
      set link | link in questionTags && link.0 == id :: link.1
    }

    constructor ()
      ensures Valid()
      ensures questions == map[] && tags == {} && questionTags == {} && votes == map[]
    {
      questions, tags, questionTags, votes := map[], {}, {}, map[];
    }

    /** `tag.upsert({ where: { name }, update: {}, create: { name } })` for each name in turn. */
    method UpsertTags(names: seq<string>)
      modifies this`tags
      ensures tags == old(tags) + NameSet(names)
    {
      var i := 0;
      while i < |names|
        invariant 0 <= i <= |names|
        invariant tags == old(tags) + NameSet(names[..i])
      {
        assert names[..i + 1] == names[..i] + [names[i]];
        tags := tags + {names[i]};
        i := i + 1;
        assert NameSet(names[..i]) == NameSet(names[..i - 1]) + {names[i - 1]};
      }
    }

    /** The tag branch of `updateQuestion`: find-or-create the tags, then replace the question's links. */
    method ReplaceTags(id: Id, names: seq<string>)
      requires Valid() && id in questions
      modifies this`tags, this`questionTags
      ensures Valid()
      ensures tags == old(tags) + NameSet(names)
      ensures TagsOf(id) == NameSet(names)
      ensures forall link :: link in questionTags && link.0 != id <==> link in old(questionTags) && link.0 != id
    {
      UpsertTags(names);
      var kept := set link | link in questionTags && link.0 != id;
      questionTags := kept + Links(id, names);
    }

    /** `createQuestion`: find-or-create every tag, then the question and one link per tag. */
    method CreateQuestion(id: Id, title: string, description: string, tagNames: seq<string>, userId: Id)
      returns (q: Question)
      requires Valid() && id !in questions
      modifies this
      ensures Valid()
      ensures q == Question(id, title, description, userId)
      ensures questions == old(questions)[id := q]
      ensures tags == old(tags) + NameSet(tagNames)
      ensures questionTags == old(questionTags) + Links(id, tagNames)
      ensures TagsOf(id) == NameSet(tagNames)
      ensures votes == old(votes)
    {
      UpsertTags(tagNames);
      q := Question(id, title, description, userId);
      questions := questions[id := q];
      questionTags := questionTags + Links(id, tagNames);
      assert forall link :: link in old(questionTags) ==> link.0 != id;
    }

    /**
      `updateQuestion`: null for an unknown id; otherwise a title or description
      replaces the old one only when it is a non-empty string, and a supplied tag
      list replaces every old link of the question.
    */
    method UpdateQuestion(id: Id, title: Option<string>, description: Option<string>, tagNames: Option<seq<string>>)
      returns (r: Option<Question>)
      requires Valid()
      modifies this
      ensures Valid()
      ensures id !in old(questions) ==>
        r == None && questions == old(questions) && tags == old(tags)
        && questionTags == old(questionTags) && votes == old(votes)
      ensures id in old(questions) ==> id in questions && r == Some(questions[id])
      ensures id in old(questions) ==>
        var q := old(questions)[id];
        && questions == old(questions)[id := r.value]
        && r.value.id == id && r.value.userId == q.userId
        && r.value.title == (if title.Some? && title.value != [] then title.value else q.title)
        && r.value.description == (if description.Some? && description.value != [] then description.value else q.description)
      ensures id in old(questions) && tagNames.Some? ==>
        && tags == old(tags) + NameSet(tagNames.value)
        && TagsOf(id) == NameSet(tagNames.value)
        && (forall link :: link in questionTags && link.0 != id <==> link in old(questionTags) && link.0 != id)
      ensures tagNames.None? ==> tags == old(tags) && questionTags == old(questionTags)
      ensures votes == old(votes)
    {
      if id !in questions {
        return None;
      }
      if tagNames.Some? {
        ReplaceTags(id, tagNames.value);
      }
      var q := questions[id];
      if title.Some? && title.value != [] {
        q := q.(title := title.value);
      }
      if description.Some? && description.value != [] {
        q := q.(description := description.value);
      }
      questions := questions[id := q];
      r := Some(q);
    }

    /** `deleteQuestion`: null for an unknown id; otherwise the row goes, and its links and votes with it. */
    method DeleteQuestion(id: Id) returns (r: Option<Question>)
      requires Valid()
      modifies this
      ensures Valid()
      ensures id !in old(questions) ==>
        r == None && questions == old(questions) && questionTags == old(questionTags) && votes == old(votes)
      ensures id in old(questions) ==>
        && r == Some(old(questions)[id])
        && questions == old(questions) - {id}
        && questionTags == (set link | link in old(questionTags) && link.0 != id)
        && votes == (map k | k in old(votes) && k.1 != id :: old(votes)[k])
      ensures tags == old(tags)
    {
      if id !in questions {
        return None;
      }
      r := Some(questions[id]);
      questions := questions - {id};
      questionTags := set link | link in questionTags && link.0 != id;
      votes := map k | k in votes && k.1 != id :: votes[k];
    }

    /**
      `voteQuestion`: "Question not found" for an unknown question; otherwise
      the (user, question) row is created or overwritten, and the question's UP
      and DOWN rows are counted.
    */
    method VoteQuestion(questionId: Id, userId: Id, voteType: VoteType) returns (r: Result<VoteResult, string>)
      requires Valid()
      modifies this`votes
      ensures Valid()
      ensures questionId !in questions ==> r == Err(QuestionNotFound) && votes == old(votes)
      ensures questionId in questions ==>
        && votes == Upsert(old(votes), userId, questionId, voteType)
        && r == Ok(VoteResult(questionId, CountVotes(votes, questionId, Up), CountVotes(votes, questionId, Down), voteType))
      ensures r.Ok? ==> r.value.upvotes + r.value.downvotes == |Voters(votes, questionId)|
    {
      if questionId !in questions {
        return Err(QuestionNotFound);
      }
      votes := Upsert(votes, userId, questionId, voteType);
      var upvotes := CountVotes(votes, questionId, Up);
      var downvotes := CountVotes(votes, questionId, Down);
      UpPlusDownIsVoters(votes, questionId);
      r := Ok(VoteResult(questionId, upvotes, downvotes, voteType));
    }
  }

  /** Casting the same vote twice in a row: the second call changes nothing and returns the same counts. */
  method RepeatVote(store: QuestionStore, questionId: Id, userId: Id, voteType: VoteType)
    returns (first: Result<VoteResult, string>, second: Result<VoteResult, string>)
    requires store.Valid()
    modifies store`votes
    ensures store.Valid()
    ensures first.Ok? <==> questionId in store.questions
    ensures first == second
  {
    first := store.VoteQuestion(questionId, userId, voteType);
    ghost var afterFirst := store.votes;
    second := store.VoteQuestion(questionId, userId, voteType);
    assert store.votes == afterFirst by {
      if questionId in store.questions {
        UpsertIdempotent(old(store.votes), userId, questionId, voteType);
      }
    }
  }

  /** Switching a vote from UP to DOWN: one fewer upvote and one more downvote. */
  method SwitchVote(store: QuestionStore, questionId: Id, userId: Id)
    returns (up: Result<VoteResult, string>, down: Result<VoteResult, string>)
    requires store.Valid()
    modifies store`votes
    ensures store.Valid()
    ensures up.Ok? <==> questionId in store.questions
    ensures up.Ok? ==> down.Ok? && down.value.upvotes == up.value.upvotes - 1 && down.value.downvotes == up.value.downvotes + 1
  {
    up := store.VoteQuestion(questionId, userId, Up);
    if up.Ok? {
      FlipUpToDown(store.votes, userId, questionId);
    }
    down := store.VoteQuestion(questionId, userId, Down);
  }
}
