/**
  The vote tables `QuestionVote` and `AnswerVote`: one row per (user, target)
  pair, keyed by the compound unique key `userId_questionId` / `userId_answerId`,
  holding the vote's direction. Both tables have the same semantics, so the map
  and its counting functions are defined once here and used by both models.
*/
module VoteLedger {

  type Id = string

  datatype VoteType = Up | Down

  /** A vote table: (userId, targetId) -> voteType; a map has one row per key. */
  type Ledger = map<(Id, Id), VoteType>

  /** `upsert` on the compound key: create the row, or overwrite its voteType. */
  function Upsert(l: Ledger, userId: Id, targetId: Id, voteType: VoteType): (r: Ledger)
    ensures (userId, targetId) in r && r[(userId, targetId)] == voteType
    ensures r.Keys == l.Keys + {(userId, targetId)}
    ensures forall k :: k in l && k != (userId, targetId) ==> r[k] == l[k]
  {
    l[(userId, targetId) := voteType]
  }

  /** The rows `count({ where: { targetId, voteType } })` counts. */
  function Rows(l: Ledger, targetId: Id, voteType: VoteType): set<(Id, Id)>
  {
    set k | k in l && k.1 == targetId && l[k] == voteType
  }

  function CountVotes(l: Ledger, targetId: Id, voteType: VoteType): nat
  {
    |Rows(l, targetId, voteType)|
  }

  /** Every row of one target. */
  function TargetRows(l: Ledger, targetId: Id): set<(Id, Id)>
  {
    set k | k in l && k.1 == targetId
  }

  /** The distinct users who have voted on a target. */
  function Voters(l: Ledger, targetId: Id): set<Id>
  {
    set k | k in l && k.1 == targetId :: k.0
  }

  /** The users of a set of rows of one target are as many as the rows. */
  lemma {:induction false} UsersOfRows(rows: set<(Id, Id)>, targetId: Id)
    requires forall k :: k in rows ==> k.1 == targetId
    ensures |set k | k in rows :: k.0| == |rows|
    decreases |rows|
  {
    if rows != {} {
      var x :| x in rows;
      var rest := rows - {x};
      UsersOfRows(rest, targetId);
      var users := set k | k in rows :: k.0;
      var restUsers := set k | k in rest :: k.0;
      assert users == restUsers + {x.0};
      assert x.0 !in restUsers;
    }
  }

  /** upvotes + downvotes is the number of distinct users who voted on the target. */
  lemma UpPlusDownIsVoters(l: Ledger, targetId: Id)
    ensures CountVotes(l, targetId, Up) + CountVotes(l, targetId, Down) == |Voters(l, targetId)|
  {
    var ups, downs := Rows(l, targetId, Up), Rows(l, targetId, Down);
    var all := TargetRows(l, targetId);
    assert ups !! downs;
    assert all == ups + downs by {
      forall k | k in all ensures k in ups + downs {
        if l[k] == Up { assert k in ups; } else { assert k in downs; }
      }
    }
    UsersOfRows(all, targetId);
    assert Voters(l, targetId) == set k | k in all :: k.0;
  }

  /** A vote on another target leaves this target's counts alone. */
  lemma UpsertOtherTarget(l: Ledger, userId: Id, targetId: Id, voteType: VoteType, other: Id, d: VoteType)
    requires other != targetId
    ensures CountVotes(Upsert(l, userId, targetId, voteType), other, d) == CountVotes(l, other, d)
  {
    assert Rows(Upsert(l, userId, targetId, voteType), other, d) == Rows(l, other, d);
  }

  /** Voting the same way twice stores the same table as voting once. */
  lemma UpsertIdempotent(l: Ledger, userId: Id, targetId: Id, voteType: VoteType)
    ensures Upsert(Upsert(l, userId, targetId, voteType), userId, targetId, voteType)
         == Upsert(l, userId, targetId, voteType)
  {
  }

  /** Rows of one target and direction after a vote: the others', plus the voter's when it matches. */
  lemma UpsertRows(l: Ledger, userId: Id, targetId: Id, voteType: VoteType, d: VoteType)
    ensures var key := (userId, targetId);
            Rows(Upsert(l, userId, targetId, voteType), targetId, d) - {key} == Rows(l, targetId, d) - {key}
            && (key in Rows(Upsert(l, userId, targetId, voteType), targetId, d) <==> voteType == d)
  {
  }

  /** How one vote moves the counts of its own target. */
  lemma {:induction false} UpsertCounts(l: Ledger, userId: Id, targetId: Id, voteType: VoteType, d: VoteType)
    ensures var key := (userId, targetId);
            var before := if key in l && l[key] == d then 1 else 0;
            var after := if voteType == d then 1 else 0;
            CountVotes(Upsert(l, userId, targetId, voteType), targetId, d)
              == CountVotes(l, targetId, d) - before + after
  {
    var key := (userId, targetId);
    var rowsBefore := Rows(l, targetId, d);
    var rowsAfter := Rows(Upsert(l, userId, targetId, voteType), targetId, d);
    UpsertRows(l, userId, targetId, voteType, d);
    SizeWithout(rowsBefore, key);
    SizeWithout(rowsAfter, key);
  }

  /** Removing one element shrinks a set by one exactly when it was there. */
  lemma SizeWithout(s: set<(Id, Id)>, x: (Id, Id))
    ensures |s| == |s - {x}| + (if x in s then 1 else 0)
  {
    if x in s { assert s == (s - {x}) + {x}; } else { assert s == s - {x}; }
  }

  /** Flip law: switching a vote from UP to DOWN moves one vote across. */
  lemma FlipUpToDown(l: Ledger, userId: Id, targetId: Id)
    requires (userId, targetId) in l && l[(userId, targetId)] == Up
    ensures CountVotes(Upsert(l, userId, targetId, Down), targetId, Up) == CountVotes(l, targetId, Up) - 1
    ensures CountVotes(Upsert(l, userId, targetId, Down), targetId, Down) == CountVotes(l, targetId, Down) + 1
  {
    UpsertCounts(l, userId, targetId, Down, Up);
    UpsertCounts(l, userId, targetId, Down, Down);
  }

  /** A first vote by a new user raises exactly one count of the target. */
  lemma FirstVote(l: Ledger, userId: Id, targetId: Id, voteType: VoteType)
    requires (userId, targetId) !in l
    ensures var l' := Upsert(l, userId, targetId, voteType);
            CountVotes(l', targetId, voteType) == CountVotes(l, targetId, voteType) + 1
            && |Voters(l', targetId)| == |Voters(l, targetId)| + 1
  {
    var l' := Upsert(l, userId, targetId, voteType);
    UpsertCounts(l, userId, targetId, voteType, Up);
    UpsertCounts(l, userId, targetId, voteType, Down);
    UpPlusDownIsVoters(l, targetId);
    UpPlusDownIsVoters(l', targetId);
  }
}
