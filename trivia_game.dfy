/** The trivia quiz (src/components/games/TriviaGame.tsx): up to five fetched
    questions, one point per answer equal to the question's correct answer, a
    2-second pause after each answer, and one `quiz_scores` row when the quiz
    is over. */
module TriviaGame {
  import opened Js
  import opened Store

  const QuizType: string := "trivia"

  /** `.limit(5)` on the `trivia_questions` query. */
  const QuestionLimit: nat := 5

  datatype Question = Question(question: string, options: seq<string>, correctAnswer: string)

  /** The outcome of `loadQuestions`' query: the rows (`null` possible), or an
      error message. */
  datatype QuestionFetch = Fetched(data: Option<seq<Question>>) | FetchFailed(message: string)

  /** A pending 2-second callback and what it captured from the render that
      scheduled it: the question index, the score as it was before the click,
      and the number of questions. */
  datatype Timeout = Timeout(index: int, score: int, count: int)

  /** The questions after `loadQuestions`: an error keeps the old ones, `null`
      data gives none. Within the query's limit the quiz never holds more than
      five questions, whatever the outcome. */
  function Loaded(current: seq<Question>, fetch: QuestionFetch): (r: seq<Question>)
    ensures |current| <= QuestionLimit && WithinLimit(fetch) ==> |r| <= QuestionLimit
    ensures fetch.FetchFailed? ==> r == current
  {
    match fetch
    case FetchFailed(_) => current
    case Fetched(data) => if data.Some? then data.value else []
  }

  /** The rows `.limit(5)` can return. */
  predicate WithinLimit(fetch: QuestionFetch)
  {
    fetch.Fetched? && fetch.data.Some? ==> |fetch.data.value| <= QuestionLimit
  }

  /** How many of `answers` (answer i to question i) are correct. */
  function CountCorrect(questions: seq<Question>, answers: seq<string>): (n: nat)
    requires |answers| <= |questions|
    ensures n <= |answers|
    ensures n == |answers| <==> forall i :: 0 <= i < |answers| ==> answers[i] == questions[i].correctAnswer
  {
    if answers == [] then 0
    else
      var k := |answers| - 1;
      CountCorrect(questions, answers[..k]) + (if answers[k] == questions[k].correctAnswer then 1 else 0)
  }

  /** The point the last of `answers` earned: the score after it less the
      score before it. */
  function LastPoint(questions: seq<Question>, answers: seq<string>): (p: nat)
    requires 0 < |answers| <= |questions|
    ensures p <= 1
    ensures CountCorrect(questions, answers) == CountCorrect(questions, answers[..|answers| - 1]) + p
  {
    if answers[|answers| - 1] == questions[|answers| - 1].correctAnswer then 1 else 0
  }

  /** The closing message. */
  datatype Verdict = Perfect | GreatJob | GoodTry

  /** The message for `score` out of `total`. */
  function VerdictFor(score: int, total: int): (v: Verdict)
    ensures v == Perfect <==> score == total
    ensures v == GreatJob <==> score != total && 2 * score >= total
    ensures v == GoodTry <==> score != total && 2 * score < total
  {
    if score == total then Perfect
    else if score as real >= total as real / 2.0 then GreatJob
    else GoodTry
  }

  /** The percentage shown on the completion card. */
  function ScorePercent(score: int, total: int): (p: int)
    requires total > 0
    ensures 0 <= score <= total ==> 0 <= p <= 100
    ensures p == 100 <== score == total
    ensures p == 0 <== score == 0
  {
    var ratio := score as real / total as real;
    RatioInUnit(score, total);
    Round(ratio * 100.0)
  }

  /** The quiz card. */
  class TriviaGame {
    const userId: Option<UserId>
    const db: Database
    var questions: seq<Question>
    var currentQuestion: int
    var score: int
    var selectedAnswer: Option<string>
    var showResult: bool
    var gameComplete: bool
    /** The 2-second callbacks scheduled and not yet run, oldest first. */
    var timeouts: seq<Timeout>
    /** The answers accepted so far, answer i for question i. */
    ghost var answers: seq<string>

    /** The states reachable when no answer is the empty string. */
    ghost predicate Valid()
      reads this
    {
      && |questions| <= QuestionLimit
      && 0 <= currentQuestion
      && (questions != [] ==> currentQuestion < |questions|)
      && selectedAnswer != Some("")
      && |answers| == currentQuestion + (if selectedAnswer.Some? then 1 else 0)
      && |answers| <= |questions|
      && (selectedAnswer.Some? ==> answers[|answers| - 1] == selectedAnswer.value)
      && score == CountCorrect(questions, answers)
      && showResult == selectedAnswer.Some?
      && (gameComplete ==> selectedAnswer.Some? && currentQuestion == |questions| - 1)
      && (timeouts != [] <==> selectedAnswer.Some? && !gameComplete)
      && |timeouts| <= 1
      && (timeouts != [] ==>
            timeouts[0] == Timeout(currentQuestion, CountCorrect(questions, answers[..currentQuestion]), |questions|))
    }

    /** Mounting the card: the initial state, then `loadQuestions`. */
    constructor (userId: Option<UserId>, db: Database, fetch: QuestionFetch)
      requires WithinLimit(fetch)
      ensures this.userId == userId && this.db == db
      ensures questions == Loaded([], fetch)
      ensures currentQuestion == 0 && score == 0 && selectedAnswer.None? && !showResult && !gameComplete
      ensures timeouts == []
      ensures Valid()
    {
      this.userId := userId;
      this.db := db;
      questions := Loaded([], fetch);
      currentQuestion := 0;
      score := 0;
      selectedAnswer := None;
      showResult := false;
      gameComplete := false;
      timeouts := [];
      answers := [];
    }

    /** `handleAnswer`: ignored while a truthy answer is selected; otherwise
        records the answer, scores it and schedules the advance. */
    method HandleAnswer(answer: string)
      requires !gameComplete && 0 <= currentQuestion < |questions|
      modifies this
      ensures Truthy(old(selectedAnswer)) ==>
        selectedAnswer == old(selectedAnswer) && score == old(score) && showResult == old(showResult) &&
        timeouts == old(timeouts) && answers == old(answers)
      ensures !Truthy(old(selectedAnswer)) ==>
        selectedAnswer == Some(answer) && showResult &&
        score == old(score) + (if answer == old(questions[currentQuestion]).correctAnswer then 1 else 0) &&
        timeouts == old(timeouts) + [Timeout(currentQuestion, old(score), |questions|)]
      ensures questions == old(questions) && currentQuestion == old(currentQuestion)
      ensures gameComplete == old(gameComplete)
      ensures old(Valid()) && answer != "" ==> Valid()
    {
      if Truthy(selectedAnswer) {
        return;
      }
      selectedAnswer := Some(answer);
      answers := answers + [answer];
      var correct := answer == questions[currentQuestion].correctAnswer;
      var before := score;
      if correct {
        score := score + 1;
      }
      showResult := true;
      timeouts := timeouts + [Timeout(currentQuestion, before, |questions|)];
      if old(Valid()) && answer != "" {
        assert answers[..currentQuestion] == old(answers);
      }
    }

    /** The 2-second callback: the next question, or the end of the quiz, when
        the score captured at the click is saved for a signed-in user. */
    method Advance()
      requires timeouts != []
      modifies this, db
      ensures var t := old(timeouts[0]);
        && timeouts == old(timeouts[1..])
        && (t.index + 1 < t.count ==>
              currentQuestion == t.index + 1 && selectedAnswer.None? && !showResult &&
              gameComplete == old(gameComplete) && db.quizScores == old(db.quizScores))
        && (t.index + 1 >= t.count ==>
              gameComplete && currentQuestion == old(currentQuestion) &&
              selectedAnswer == old(selectedAnswer) && showResult == old(showResult) &&
              db.quizScores == old(db.quizScores) +
                (if Truthy(userId) then [QuizScoreRow(userId.value, QuizType, t.score, t.count)] else []))
      ensures questions == old(questions) && score == old(score)
      ensures db.treeProgress == old(db.treeProgress)
      ensures old(Valid()) ==> Valid()
      // The quirk of the last step: the saved row holds the score of the render
      // that handled the final click, so a correct final answer is missing from
      // it while the card shows the full score.
      ensures old(Valid()) && old(currentQuestion) + 1 == |questions| ==>
        && gameComplete && |answers| == |questions| && score == CountCorrect(questions, answers)
        && db.quizScores == old(db.quizScores) +
             (if Truthy(userId) then [QuizScoreRow(userId.value, QuizType, score - LastPoint(questions, answers), |questions|)]
              else [])
    {
      var t := timeouts[0];
      timeouts := timeouts[1..];
      if t.index + 1 < t.count {
        currentQuestion := t.index + 1;
        selectedAnswer := None;
        showResult := false;
      } else {
        gameComplete := true;
        if Truthy(userId) {
          db.InsertQuizScore(QuizScoreRow(userId.value, QuizType, t.score, t.count));
        }
      }
    }

    /** `resetGame`, with the `loadQuestions` it starts: only offered on the
        completion card. Pending callbacks are not cancelled. */
    method ResetGame(fetch: QuestionFetch)
      requires gameComplete && WithinLimit(fetch)
      modifies this
      ensures currentQuestion == 0 && score == 0 && selectedAnswer.None? && !showResult && !gameComplete
      ensures questions == Loaded(old(questions), fetch)
      ensures timeouts == old(timeouts)
      ensures old(Valid()) ==> Valid()
    {
      currentQuestion := 0;
      score := 0;
      selectedAnswer := None;
      showResult := false;
      gameComplete := false;
      answers := [];
      questions := Loaded(questions, fetch);
    }
  }
}
