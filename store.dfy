/** The two tables of the hosted database the core writes to: `tree_progress`
    (one row per user) and `quiz_scores` (append-only). Timestamps columns
    (`last_watered_at`, `created_at`) are not modelled. Every write succeeds,
    since the components never inspect the result of a write. */
module Store {
  import opened Js

  type UserId = string

  /** A `tree_progress` row: `tree_level` and `water_count`. */
  datatype TreeRow = TreeRow(treeLevel: int, waterCount: int)

  /** A `quiz_scores` row. */
  datatype QuizScoreRow = QuizScoreRow(userId: UserId, quizType: string, score: int, totalQuestions: int)

  /** The rows of `rows` that belong to user `u`, in table order
      (`select("*").eq("user_id", u)`). */
  function RowsOf(rows: seq<QuizScoreRow>, u: UserId): (r: seq<QuizScoreRow>)
    ensures |r| <= |rows|
    ensures forall i :: 0 <= i < |r| ==> r[i] in rows && r[i].userId == u
    ensures forall x :: multiset(r)[x] == if x.userId == u then multiset(rows)[x] else 0
  {
    if rows == [] then []
    else
      assert rows == [rows[0]] + rows[1..];
      if rows[0].userId == u then [rows[0]] + RowsOf(rows[1..], u)
      else RowsOf(rows[1..], u)
  }

  class Database {
    var treeProgress: map<UserId, TreeRow>
    var quizScores: seq<QuizScoreRow>

    constructor (treeProgress: map<UserId, TreeRow>, quizScores: seq<QuizScoreRow>)
      ensures this.treeProgress == treeProgress && this.quizScores == quizScores
    {
      this.treeProgress := treeProgress;
      this.quizScores := quizScores;
    }

    /** `insert` into `tree_progress`: `user_id` is the table's key, so an
        insert for a user who already has a row is rejected and changes nothing. */
    method InsertTreeRow(u: UserId, row: TreeRow)
      modifies this
      ensures treeProgress == if u in old(treeProgress) then old(treeProgress) else old(treeProgress)[u := row]
      ensures quizScores == old(quizScores)
    {
      if u !in treeProgress {
        treeProgress := treeProgress[u := row];
      }
    }

    /** `update(...).eq("user_id", u)`: `level` is `None` when the update does
        not name `tree_level`. A user without a row matches nothing. */
    method UpdateTreeRow(u: UserId, level: Option<int>, waterCount: int)
      modifies this
      ensures u in old(treeProgress) ==>
        treeProgress == old(treeProgress)[u := TreeRow(
          if level.Some? then level.value else old(treeProgress)[u].treeLevel, waterCount)]
      ensures u !in old(treeProgress) ==> treeProgress == old(treeProgress)
      ensures quizScores == old(quizScores)
    {
      if u in treeProgress {
        var newLevel := if level.Some? then level.value else treeProgress[u].treeLevel;
        treeProgress := treeProgress[u := TreeRow(newLevel, waterCount)];
      }
    }

    /** `insert` into `quiz_scores`: one more row at the end. */
    method InsertQuizScore(row: QuizScoreRow)
      modifies this
      ensures quizScores == old(quizScores) + [row]
      ensures treeProgress == old(treeProgress)
    {
      quizScores := quizScores + [row];
    }
  }
}
