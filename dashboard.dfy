/** The dashboard's statistics (src/pages/Dashboard.tsx): the tree level,
    the number of completed quizzes, their average percentage, the badges
    these earn, the next-challenge cards, and the greeting's name and
    initials. */
module Dashboard {
  import opened Js
  import opened Store

  datatype Badge = Seedling | Sapling | TreeMaster | QuizStarter | KnowledgeSeeker | EcoExpert | PerfectScore

  /** The badge's label, as shown and as passed to `getBadgeIcon`. */
  function BadgeName(b: Badge): string
  {
    match b
    case Seedling => "Seedling"
    case Sapling => "Sapling"
    case TreeMaster => "Tree Master"
    case QuizStarter => "Quiz Starter"
    case KnowledgeSeeker => "Knowledge Seeker"
    case EcoExpert => "Eco Expert"
    case PerfectScore => "Perfect Score"
  }

  /** The threshold of each badge. */
  predicate Earned(b: Badge, treeLevel: int, totalQuizzes: int, averageScore: int)
  {
    match b
    case Seedling => treeLevel >= 1
    case Sapling => treeLevel >= 5
    case TreeMaster => treeLevel >= 10
    case QuizStarter => totalQuizzes >= 1
    case KnowledgeSeeker => totalQuizzes >= 5
    case EcoExpert => averageScore >= 80
    case PerfectScore => averageScore == 100
  }

  /** The badge's place in the order `loadUserStats` pushes them. */
  function Rank(b: Badge): nat
  {
    match b
    case Seedling => 0
    case Sapling => 1
    case TreeMaster => 2
    case QuizStarter => 3
    case KnowledgeSeeker => 4
    case EcoExpert => 5
    case PerfectScore => 6
  }

  /** What one `if (...) badges.push(...)` adds. */
  function Pushed(b: Badge, treeLevel: int, totalQuizzes: int, averageScore: int): seq<Badge>
  {
    if Earned(b, treeLevel, totalQuizzes, averageScore) then [b] else []
  }

  /** The badge list: every badge in turn, kept when its threshold holds. */
  function Badges(l: int, q: int, a: int): (r: seq<Badge>)
    ensures |r| <= 7
  {
    Pushed(Seedling, l, q, a) + Pushed(Sapling, l, q, a) + Pushed(TreeMaster, l, q, a) +
    Pushed(QuizStarter, l, q, a) + Pushed(KnowledgeSeeker, l, q, a) + Pushed(EcoExpert, l, q, a) +
    Pushed(PerfectScore, l, q, a)
  }

  /** Strictly increasing by `Rank`: in push order, and so none twice. */
  predicate Ascending(bs: seq<Badge>)
  {
    forall i, j :: 0 <= i < j < |bs| ==> Rank(bs[i]) < Rank(bs[j])
  }

  predicate NoDuplicates(bs: seq<Badge>)
  {
    forall i, j :: 0 <= i < j < |bs| ==> bs[i] != bs[j]
  }

  /** One more push of a later badge keeps the list ascending. */
  lemma PushAscending(bs: seq<Badge>, b: Badge, treeLevel: int, totalQuizzes: int, averageScore: int)
    requires Ascending(bs)
    requires forall i :: 0 <= i < |bs| ==> Rank(bs[i]) < Rank(b)
    ensures Ascending(bs + Pushed(b, treeLevel, totalQuizzes, averageScore))
  {
  }

  /** The badge list holds exactly the badges whose thresholds hold. */
  lemma BadgesEarned(treeLevel: int, totalQuizzes: int, averageScore: int)
    ensures forall b :: b in Badges(treeLevel, totalQuizzes, averageScore) <==> Earned(b, treeLevel, totalQuizzes, averageScore)
  {
  }

  /** The badge list is in push order, so lists no badge twice. */
  lemma BadgesAscending(l: int, q: int, a: int)
    ensures Ascending(Badges(l, q, a))
    ensures NoDuplicates(Badges(l, q, a))
  {
    var s := Pushed(Seedling, l, q, a);
    PushAscending(s, Sapling, l, q, a);
    s := s + Pushed(Sapling, l, q, a);
    PushAscending(s, TreeMaster, l, q, a);
    s := s + Pushed(TreeMaster, l, q, a);
    PushAscending(s, QuizStarter, l, q, a);
    s := s + Pushed(QuizStarter, l, q, a);
    PushAscending(s, KnowledgeSeeker, l, q, a);
    s := s + Pushed(KnowledgeSeeker, l, q, a);
    PushAscending(s, EcoExpert, l, q, a);
    s := s + Pushed(EcoExpert, l, q, a);
    PushAscending(s, PerfectScore, l, q, a);
  }

  /** The successive `badges.push` calls of `loadUserStats`. */
  method CollectBadges(treeLevel: int, totalQuizzes: int, averageScore: int) returns (badges: seq<Badge>)
    ensures badges == Badges(treeLevel, totalQuizzes, averageScore)
  {
    ghost var l, q, a := treeLevel, totalQuizzes, averageScore;
    badges := [];
    if treeLevel >= 1 { badges := badges + [Seedling]; }
    assert badges == Pushed(Seedling, l, q, a);
    if treeLevel >= 5 { badges := badges + [Sapling]; }
    assert badges == Pushed(Seedling, l, q, a) + Pushed(Sapling, l, q, a);
    if treeLevel >= 10 { badges := badges + [TreeMaster]; }
    assert badges == Pushed(Seedling, l, q, a) + Pushed(Sapling, l, q, a) + Pushed(TreeMaster, l, q, a);
    if totalQuizzes >= 1 { badges := badges + [QuizStarter]; }
    assert badges == Pushed(Seedling, l, q, a) + Pushed(Sapling, l, q, a) + Pushed(TreeMaster, l, q, a) +
      Pushed(QuizStarter, l, q, a);
    if totalQuizzes >= 5 { badges := badges + [KnowledgeSeeker]; }
    assert badges == Pushed(Seedling, l, q, a) + Pushed(Sapling, l, q, a) + Pushed(TreeMaster, l, q, a) +
      Pushed(QuizStarter, l, q, a) + Pushed(KnowledgeSeeker, l, q, a);
    if averageScore >= 80 { badges := badges + [EcoExpert]; }
    assert badges == Pushed(Seedling, l, q, a) + Pushed(Sapling, l, q, a) + Pushed(TreeMaster, l, q, a) +
      Pushed(QuizStarter, l, q, a) + Pushed(KnowledgeSeeker, l, q, a) + Pushed(EcoExpert, l, q, a);
    if averageScore == 100 { badges := badges + [PerfectScore]; }
  }

  /** Higher badges of one track imply the lower ones. */
  lemma BadgeImplications(treeLevel: int, totalQuizzes: int, averageScore: int)
    ensures var bs := Badges(treeLevel, totalQuizzes, averageScore);
      && (TreeMaster in bs ==> Sapling in bs)
      && (Sapling in bs ==> Seedling in bs)
      && (KnowledgeSeeker in bs ==> QuizStarter in bs)
      && (PerfectScore in bs ==> EcoExpert in bs)
  {
    BadgesEarned(treeLevel, totalQuizzes, averageScore);
  }

  /** `stats` as `loadUserStats` sets it. */
  datatype UserStats = UserStats(treeLevel: int, waterCount: int, totalQuizzes: int, averageScore: int, badges: seq<Badge>)

  /** Every row can be turned into a percentage (no division by zero). */
  predicate Divisible(rows: seq<QuizScoreRow>)
  {
    forall i :: 0 <= i < |rows| ==> rows[i].totalQuestions > 0
  }

  /** Every row's score lies between 0 and its question count. */
  predicate InRange(rows: seq<QuizScoreRow>)
  {
    forall i :: 0 <= i < |rows| ==> 0 <= rows[i].score <= rows[i].totalQuestions
  }

  /** The quiz's percentage, unrounded. */
  function RowPercent(q: QuizScoreRow): real
    requires q.totalQuestions > 0
  {
    q.score as real / q.totalQuestions as real * 100.0
  }

  /** The `reduce` over the rows: the sum of their unrounded percentages. */
  function SumPercent(rows: seq<QuizScoreRow>): (s: real)
    requires Divisible(rows)
    ensures InRange(rows) ==> 0.0 <= s <= 100.0 * |rows| as real
  {
    if rows == [] then 0.0
    else
      RatioInUnit(rows[0].score, rows[0].totalQuestions);
      RowPercent(rows[0]) + SumPercent(rows[1..])
  }

  /** `averageScore`: `Math.round` of the mean percentage, rounded once; 0
      without rows. */
  function AverageScore(rows: seq<QuizScoreRow>): (a: int)
    requires Divisible(rows)
    ensures InRange(rows) ==> 0 <= a <= 100
    ensures rows == [] ==> a == 0
  {
    if |rows| > 0 then
      var n := |rows| as real;
      var s := SumPercent(rows);
      assert InRange(rows) ==> 0.0 <= s / n <= 100.0 by {
        if InRange(rows) {
          assert (s / n) * n == s;
        }
      }
      Round(s / n)
    else 0
  }

  /** Rounding once after averaging is not rounding each row first: 1 of 8
      (12.5%) and 0 of 1 (0%) average to 6, while rounding each row first
      would give 7. */
  lemma RoundOnceDiffersFromPerRow()
    ensures var rows := [QuizScoreRow("u", "trivia", 1, 8), QuizScoreRow("u", "trivia", 0, 1)];
      AverageScore(rows) == 6 &&
      Round((Round(RowPercent(rows[0])) + Round(RowPercent(rows[1]))) as real / 2.0) == 7
  {
  }

  /** `stats` from the two query results (`null` on no row or on error):
      missing data counts as zero. */
  function StatsOf(treeData: Option<TreeRow>, quizData: Option<seq<QuizScoreRow>>): (s: UserStats)
    requires quizData.Some? ==> Divisible(quizData.value)
    ensures s.badges == Badges(s.treeLevel, s.totalQuizzes, s.averageScore)
    ensures treeData.None? ==> s.treeLevel == 0 && s.waterCount == 0
    ensures treeData.Some? ==> s.treeLevel == treeData.value.treeLevel && s.waterCount == treeData.value.waterCount
    ensures s.totalQuizzes == if quizData.Some? then |quizData.value| else 0
    ensures s.averageScore == if quizData.Some? && quizData.value != [] then AverageScore(quizData.value) else 0
    ensures quizData.Some? ==> InRange(quizData.value) ==> 0 <= s.averageScore <= 100
  {
    var treeLevel := if treeData.Some? then treeData.value.treeLevel else 0;
    var waterCount := if treeData.Some? then treeData.value.waterCount else 0;
    var totalQuizzes := if quizData.Some? then |quizData.value| else 0;
    var averageScore := if totalQuizzes > 0 then AverageScore(quizData.value) else 0;
    UserStats(treeLevel, waterCount, totalQuizzes, averageScore, Badges(treeLevel, totalQuizzes, averageScore))
  }

  /** A new user, with no tree row and no quizzes, has zero statistics and no
      badge. */
  lemma NewUserStats(quizData: Option<seq<QuizScoreRow>>)
    requires quizData == None || quizData == Some([])
    ensures var s := StatsOf(None, quizData);
      s.treeLevel == 0 && s.totalQuizzes == 0 && s.averageScore == 0 && s.badges == []
  {
  }

  /** The next-challenge cards. */
  predicate ShowsLevelChallenge(s: UserStats) { s.treeLevel < 5 }
  predicate ShowsQuizChallenge(s: UserStats) { s.totalQuizzes < 5 }
  predicate ShowsScoreChallenge(s: UserStats) { s.averageScore < 80 && s.totalQuizzes > 0 }

  /** Each next-challenge card is shown exactly while its badge is missing
      (the score card only once a quiz is done). */
  lemma ChallengesComplementBadges(s: UserStats)
    requires s.badges == Badges(s.treeLevel, s.totalQuizzes, s.averageScore)
    ensures ShowsLevelChallenge(s) <==> Sapling !in s.badges
    ensures ShowsQuizChallenge(s) <==> KnowledgeSeeker !in s.badges
    ensures ShowsScoreChallenge(s) <==> QuizStarter in s.badges && EcoExpert !in s.badges
  {
    BadgesEarned(s.treeLevel, s.totalQuizzes, s.averageScore);
  }

  const DefaultIcon: string := "\U{1F396}\U{FE0F}"

  /** `getBadgeIcon`. */
  function BadgeIcon(badge: string): string
  {
    if badge == "Seedling" then "\U{1F331}"
    else if badge == "Sapling" then "\U{1F33F}"
    else if badge == "Tree Master" then "\U{1F333}"
    else if badge == "Quiz Starter" then "\U{1F4DA}"
    else if badge == "Knowledge Seeker" then "\U{1F50D}"
    else if badge == "Eco Expert" then "\U{2B50}"
    else if badge == "Perfect Score" then "\U{1F3C6}"
    else DefaultIcon
  }

  /** The seven badges get seven different icons, none of them the default;
      any other label gets the default. */
  lemma BadgeIconsDistinct()
    ensures forall a: Badge, b: Badge :: a != b ==> BadgeIcon(BadgeName(a)) != BadgeIcon(BadgeName(b))
    ensures forall b: Badge :: BadgeIcon(BadgeName(b)) != DefaultIcon
    ensures forall s: string :: (forall b: Badge :: s != BadgeName(b)) ==> BadgeIcon(s) == DefaultIcon
  {
    forall s: string | forall b: Badge :: s != BadgeName(b)
      ensures BadgeIcon(s) == DefaultIcon
    {
      assert s != BadgeName(Seedling) && s != BadgeName(Sapling) && s != BadgeName(TreeMaster);
      assert s != BadgeName(QuizStarter) && s != BadgeName(KnowledgeSeeker);
      assert s != BadgeName(EcoExpert) && s != BadgeName(PerfectScore);
    }
  }

  /** `email.split('@')[0]`: the text before the first '@'. */
  function BeforeFirstAt(email: string): (r: string)
    ensures r <= email && '@' !in r
    ensures |r| == |email| || email[|r|] == '@'
  {
    if email == [] || email[0] == '@' then []
    else [email[0]] + BeforeFirstAt(email[1..])
  }

  const FallbackName: string := "Explorer"

  /** `userName`: the address's local part, or "Explorer" when the address is
      missing or its local part is empty. */
  function UserName(email: Option<string>): (name: string)
    ensures name != ""
    ensures name == FallbackName || (email.Some? && name == BeforeFirstAt(email.value))
    ensures email.Some? && BeforeFirstAt(email.value) != "" ==> name == BeforeFirstAt(email.value)
    ensures email.None? ==> name == FallbackName
  {
    if email.Some? && BeforeFirstAt(email.value) != "" then BeforeFirstAt(email.value) else FallbackName
  }

  /** `toUpperCase` on one character, for ASCII letters. */
  function UpperAscii(c: char): char
  {
    if 'a' <= c <= 'z' then (c as int - 32) as char else c
  }

  /** `userInitials`: the first two characters of the name, upper-cased. */
  function UserInitials(name: string): (r: string)
    ensures |r| == if |name| <= 2 then |name| else 2
    ensures forall i :: 0 <= i < |r| ==> r[i] == UpperAscii(name[i])
  {
    var prefix := if |name| <= 2 then name else name[..2];
    seq(|prefix|, i requires 0 <= i < |prefix| => UpperAscii(prefix[i]))
  }

  /** The dashboard page. */
  class DashboardPage {
    const db: Database
    var stats: Option<UserStats>

    constructor (db: Database)
      ensures this.db == db && stats.None?
    {
      this.db := db;
      stats := None;
    }

    /** `loadUserStats` for a signed-in user; a failed query yields `null`
        data, as do a missing tree row. */
    method LoadUserStats(userId: UserId, treeQueryFailed: bool, quizQueryFailed: bool)
      requires Divisible(RowsOf(db.quizScores, userId))
      modifies this`stats
      ensures stats == Some(StatsOf(
        if treeQueryFailed || userId !in db.treeProgress then None else Some(db.treeProgress[userId]),
        if quizQueryFailed then None else Some(RowsOf(db.quizScores, userId))))
    {
      var treeData := if treeQueryFailed || userId !in db.treeProgress then None else Some(db.treeProgress[userId]);
      var quizData := if quizQueryFailed then None else Some(RowsOf(db.quizScores, userId));
      var treeLevel := if treeData.Some? then treeData.value.treeLevel else 0;
      var waterCount := if treeData.Some? then treeData.value.waterCount else 0;
      var totalQuizzes := if quizData.Some? then |quizData.value| else 0;
      var averageScore := if totalQuizzes > 0 then AverageScore(quizData.value) else 0;
      var badges := CollectBadges(treeLevel, totalQuizzes, averageScore);
      stats := Some(UserStats(treeLevel, waterCount, totalQuizzes, averageScore, badges));
    }
  }
}
