/** The virtual tree (src/components/games/TreeGame.tsx): a level and a water
    count; each watering adds one, and reaching `level * 5` waters raises the
    level and empties the count. Every step is written through to the user's
    `tree_progress` row. */
module TreeGame {
  import opened Js
  import opened Store

  /** The `error.code` PostgREST reports for a `maybeSingle` that did not find
      exactly one row; loading treats it like "no row". */
  const NotOneRowCode: string := "PGRST116"

  /** The waters a tree of this level needs before it levels up. */
  function WatersNeeded(level: int): int
  {
    level * 5
  }

  /** The state the component keeps at rest: a positive level and fewer
      waters than the level needs. */
  predicate WellFormed(p: TreeRow)
  {
    p.treeLevel >= 1 && 0 <= p.waterCount < WatersNeeded(p.treeLevel)
  }

  /** Whether the next watering reaches the threshold. */
  predicate LevelsUp(p: TreeRow)
  {
    p.waterCount + 1 >= WatersNeeded(p.treeLevel)
  }

  /** The in-memory effect of one watering. */
  function Water(p: TreeRow): (r: TreeRow)
    ensures WellFormed(p) ==> WellFormed(r)
    ensures p.treeLevel <= r.treeLevel <= p.treeLevel + 1
    ensures r.treeLevel == p.treeLevel + 1 <==> LevelsUp(p)
    ensures r.treeLevel == p.treeLevel + 1 ==> r.waterCount == 0
    ensures r.treeLevel == p.treeLevel ==> r.waterCount == p.waterCount + 1
  {
    if LevelsUp(p) then TreeRow(p.treeLevel + 1, 0) else TreeRow(p.treeLevel, p.waterCount + 1)
  }

  /** `n` waterings in a row. */
  function WaterTimes(p: TreeRow, n: nat): TreeRow
    decreases n
  {
    if n == 0 then p else WaterTimes(Water(p), n - 1)
  }

  /** Below the threshold, waterings only count up. */
  lemma {:induction false} WaterWithinLevel(level: int, w: nat, k: nat)
    requires level >= 1 && w + k < WatersNeeded(level)
    ensures WaterTimes(TreeRow(level, w), k) == TreeRow(level, w + k)
    decreases k
  {
    if k > 0 {
      assert Water(TreeRow(level, w)) == TreeRow(level, w + 1);
      WaterWithinLevel(level, w + 1, k - 1);
    }
  }

  /** From the start of a level, the waters still needed lead to the next
      level with an empty count. */
  lemma {:induction false} WaterToNextLevel(level: int, w: nat)
    requires level >= 1 && w < WatersNeeded(level)
    ensures WaterTimes(TreeRow(level, w), WatersNeeded(level) - w) == TreeRow(level + 1, 0)
    decreases WatersNeeded(level) - w
  {
    if w + 1 == WatersNeeded(level) {
      assert WaterTimes(TreeRow(level, w), 1) == WaterTimes(TreeRow(level + 1, 0), 0);
    } else {
      assert Water(TreeRow(level, w)) == TreeRow(level, w + 1);
      WaterToNextLevel(level, w + 1);
    }
  }

  /** Starting from (L, 0), exactly `L * 5` waterings level the tree up
      exactly once: every earlier prefix stays at level L, and the last one
      ends at (L + 1, 0). */
  lemma OneLevelPerThreshold(level: int)
    requires level >= 1
    ensures forall k: nat :: k < WatersNeeded(level) ==> WaterTimes(TreeRow(level, 0), k) == TreeRow(level, k)
    ensures WaterTimes(TreeRow(level, 0), WatersNeeded(level)) == TreeRow(level + 1, 0)
  {
    forall k: nat | k < WatersNeeded(level)
      ensures WaterTimes(TreeRow(level, 0), k) == TreeRow(level, k)
    {
      WaterWithinLevel(level, 0, k);
    }
    WaterToNextLevel(level, 0);
  }

  /** The four looks of the tree, from smallest to largest. */
  datatype TreeLook = Seedling | Herb | Deciduous | Evergreen

  function LookRank(t: TreeLook): nat
  {
    match t
    case Seedling => 0
    case Herb => 1
    case Deciduous => 2
    case Evergreen => 3
  }

  /** `getTreeEmoji`: the look for a level. */
  function TreeEmoji(level: int): TreeLook
  {
    if level <= 2 then Seedling
    else if level <= 5 then Herb
    else if level <= 10 then Deciduous
    else Evergreen
  }

  /** A higher level never shows a smaller tree, and two levels show
      different looks exactly when a breakpoint (2, 5 or 10) lies between them. */
  lemma TreeEmojiMonotone(a: int, b: int)
    requires a <= b
    ensures LookRank(TreeEmoji(a)) <= LookRank(TreeEmoji(b))
    ensures TreeEmoji(a) != TreeEmoji(b) <==> (a <= 2 < b) || (a <= 5 < b) || (a <= 10 < b)
  {
  }

  /** What the toast after a watering announces. */
  datatype WaterOutcome = LevelUp(newLevel: int) | Watered(remaining: int)

  /** The tree card of one user. */
  class TreeGame {
    const userId: Option<UserId>
    const db: Database
    var treeLevel: int
    var waterCount: int
    var loading: bool

    function Progress(): TreeRow
      reads this
    {
      TreeRow(treeLevel, waterCount)
    }

    /** The user's stored row equals the in-memory state. */
    predicate Synced()
      reads this, db
    {
      userId.Some? && userId.value in db.treeProgress && db.treeProgress[userId.value] == Progress()
    }

    constructor (userId: Option<UserId>, db: Database)
      ensures this.userId == userId && this.db == db
      ensures Progress() == TreeRow(1, 0) && loading
    {
      this.userId := userId;
      this.db := db;
      treeLevel := 1;
      waterCount := 0;
      loading := true;
    }

    /** `loadTreeProgress`, run on mount when there is a user; `fault` is the
        error code of the `select`, if it failed. An existing row is adopted; no
        row (or the "not exactly one row" code) inserts the default row (1, 0); any other
        error leaves both the state and the table as they were. */
    method LoadTreeProgress(fault: Option<string>)
      requires Truthy(userId)
      modifies this`treeLevel, this`waterCount, this`loading, db
      ensures !loading
      ensures db.quizScores == old(db.quizScores)
      ensures fault.Some? && fault.value != NotOneRowCode ==>
        Progress() == old(Progress()) && db.treeProgress == old(db.treeProgress)
      ensures fault.None? && userId.value in old(db.treeProgress) ==>
        Progress() == old(db.treeProgress)[userId.value] && db.treeProgress == old(db.treeProgress)
      ensures (fault == Some(NotOneRowCode) || (fault.None? && userId.value !in old(db.treeProgress))) ==>
        Progress() == old(Progress()) &&
        db.treeProgress == if userId.value in old(db.treeProgress) then old(db.treeProgress)
                           else old(db.treeProgress)[userId.value := TreeRow(1, 0)]
      ensures (old(Progress()) == TreeRow(1, 0) &&
               (fault.None? || (fault == Some(NotOneRowCode) && userId.value !in old(db.treeProgress))))
        ==> Synced()
    {
      var u := userId.value;
      if fault.Some? && fault.value != NotOneRowCode {
        // the error is reported in a toast
      } else if fault.None? && u in db.treeProgress {
        var row := db.treeProgress[u];
        treeLevel := row.treeLevel;
        waterCount := row.waterCount;
      } else {
        db.InsertTreeRow(u, TreeRow(1, 0));
      }
      loading := false;
    }

    /** `waterTree`: one watering, written through to the user's row. A
        level-up writes both columns; a plain watering writes only
        `water_count`. The result is what the toast announces. */
    method WaterTree() returns (outcome: WaterOutcome)
      requires !loading
      modifies this`treeLevel, this`waterCount, db
      ensures Progress() == Water(old(Progress()))
      ensures outcome == if LevelsUp(old(Progress())) then LevelUp(treeLevel)
                         else Watered(WatersNeeded(treeLevel) - waterCount)
      ensures outcome.Watered? ==> outcome.remaining > 0
      ensures userId.Some? && userId.value in old(db.treeProgress) ==>
        db.treeProgress == old(db.treeProgress)[userId.value := TreeRow(
          if outcome.LevelUp? then treeLevel else old(db.treeProgress)[userId.value].treeLevel, waterCount)]
      ensures !(userId.Some? && userId.value in old(db.treeProgress)) ==> db.treeProgress == old(db.treeProgress)
      ensures forall v :: v in old(db.treeProgress) && Some(v) != userId ==>
        v in db.treeProgress && db.treeProgress[v] == old(db.treeProgress)[v]
      ensures db.quizScores == old(db.quizScores)
      ensures old(Synced()) ==> Synced()
      ensures old(WellFormed(Progress())) ==> WellFormed(Progress())
    {
      var newWaterCount := waterCount + 1;
      var newTreeLevel := treeLevel;
      if newWaterCount >= WatersNeeded(treeLevel) {
        newTreeLevel := treeLevel + 1;
        if userId.Some? {
          db.UpdateTreeRow(userId.value, Some(newTreeLevel), 0);
        }
        treeLevel := newTreeLevel;
        waterCount := 0;
        outcome := LevelUp(newTreeLevel);
      } else {
        if userId.Some? {
          db.UpdateTreeRow(userId.value, None, newWaterCount);
        }
        waterCount := newWaterCount;
        outcome := Watered(WatersNeeded(treeLevel) - newWaterCount);
      }
    }
  }
}
