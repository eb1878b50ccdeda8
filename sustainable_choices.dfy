/** The sustainable-choices game (src/components/games/SustainableChoices.tsx):
    four fixed scenarios of three options each, a signed impact per option
    summed into the score, a 3-second pause after each choice, and a closing
    percentage and tier. Nothing is ever written to the database. */
module SustainableChoices {
  import opened Js
  import opened Store

  datatype Choice = Choice(text: string, impact: int, feedback: string)
  datatype Scenario = Scenario(question: string, options: seq<Choice>)

  /** The `scenarios` table. */
  const Scenarios: seq<Scenario> := [
    Scenario("You're going to the grocery store. What bag do you bring?", [
      Choice("Plastic bag from store", -2, "Plastic bags harm marine life and take 1000 years to decompose."),
      Choice("Paper bag from store", 0, "Better than plastic, but requires energy and trees to produce."),
      Choice("Reusable cloth bag", 2, "Excellent! Reusable bags reduce waste significantly.")]),
    Scenario("How do you commute to work/school today?", [
      Choice("Drive alone in car", -2, "Cars emit significant CO2. Consider carpooling!"),
      Choice("Take public transport", 1, "Good choice! Public transport reduces carbon footprint."),
      Choice("Bike or walk", 2, "Perfect! Zero emissions and great for your health!")]),
    Scenario("You want to buy new clothes. Where do you shop?", [
      Choice("Fast fashion store", -2, "Fast fashion creates massive waste and pollution."),
      Choice("Regular retail store", 0, "Okay choice, but consider sustainable brands next time."),
      Choice("Thrift store or sustainable brand", 2, "Excellent! Reduces waste and supports circular economy.")]),
    Scenario("How do you handle food waste?", [
      Choice("Throw everything in trash", -2, "Food waste in landfills produces methane, a potent greenhouse gas."),
      Choice("Recycle what I can", 1, "Good! But composting is even better for food waste."),
      Choice("Compost organic waste", 2, "Perfect! Composting creates nutrient-rich soil and reduces methane.")])
  ]

  /** `scenarios.length` and the options per scenario; `TableShape` checks
      them against the table. */
  const ScenarioCount: nat := 4
  const OptionCount: nat := 3

  /** `maxScore`: two points per scenario. */
  const MaxScore: int := ScenarioCount * 2

  lemma TableShape()
    ensures |Scenarios| == ScenarioCount
    ensures forall i :: 0 <= i < |Scenarios| ==> |Scenarios[i].options| == OptionCount
  {
  }

  /** Option `option` of scenario `scenario` exists. */
  predicate IsOption(scenario: int, option: int)
  {
    0 <= scenario < ScenarioCount && 0 <= option < OptionCount
  }

  /** The impact of one choice. */
  function Impact(scenario: int, option: int): (v: int)
    requires IsOption(scenario, option)
    ensures -2 <= v <= 2
    ensures option == 0 ==> v == -2
    ensures option == 2 ==> v == 2
  {
    TableShape();
    Scenarios[scenario].options[option].impact
  }

  /** The feedback panel's heading and colour: "Great Choice!" in the success
      colour, "Consider This" in the destructive colour, "Good Try" muted. */
  datatype Tone = GreatChoice | ConsiderThis | GoodTry

  function ToneOf(impact: int): Tone
  {
    if impact > 0 then GreatChoice else if impact < 0 then ConsiderThis else GoodTry
  }

  /** In every scenario the first option is discouraged and the last one
      praised; no option's tone is outside the three. */
  lemma ToneOfExtremes(scenario: int)
    requires 0 <= scenario < ScenarioCount
    ensures ToneOf(Impact(scenario, 0)) == ConsiderThis
    ensures ToneOf(Impact(scenario, 2)) == GreatChoice
    ensures forall o :: 0 <= o < OptionCount ==> (ToneOf(Impact(scenario, o)) == GoodTry <==> Impact(scenario, o) == 0)
  {
  }

  /** `choices[i]` is the option taken in scenario i. */
  predicate ValidChoices(choices: seq<int>)
  {
    |choices| <= ScenarioCount && forall i :: 0 <= i < |choices| ==> IsOption(i, choices[i])
  }

  /** The score after `choices`: the sum of their impacts. */
  function ImpactSum(choices: seq<int>): (s: int)
    requires ValidChoices(choices)
    ensures -2 * |choices| <= s <= 2 * |choices|
  {
    if choices == [] then 0
    else
      var k := |choices| - 1;
      ImpactSum(choices[..k]) + Impact(k, choices[k])
  }

  /** Always taking option i: the first (-2 each) or last (+2 each) extreme. */
  lemma {:induction false} ExtremeSums(choices: seq<int>)
    requires ValidChoices(choices)
    ensures (forall i :: 0 <= i < |choices| ==> choices[i] == 0) ==> ImpactSum(choices) == -2 * |choices|
    ensures (forall i :: 0 <= i < |choices| ==> choices[i] == 2) ==> ImpactSum(choices) == 2 * |choices|
  {
    if choices != [] {
      ExtremeSums(choices[..|choices| - 1]);
    }
  }

  /** `percentage`: the score mapped linearly, 0 points to 50%, with no clamp. */
  function Percentage(score: int): (p: real)
    ensures p == (score + 4) as real * 12.5
    ensures -8 <= score <= 8 ==> -50.0 <= p <= 150.0
  {
    ((score as real + MaxScore as real / 2.0) / MaxScore as real) * 100.0
  }

  /** The closing title. */
  datatype Tier = EcoChampion | EcoWarrior | EcoLearner | KeepLearning

  function TierOf(percentage: real): Tier
  {
    if percentage >= 80.0 then EcoChampion
    else if percentage >= 60.0 then EcoWarrior
    else if percentage >= 40.0 then EcoLearner
    else KeepLearning
  }

  /** The percentage thresholds are integer thresholds on the score. */
  lemma TierByScore(score: int)
    ensures TierOf(Percentage(score)) == EcoChampion <==> score >= 3
    ensures TierOf(Percentage(score)) == EcoWarrior <==> 1 <= score < 3
    ensures TierOf(Percentage(score)) == EcoLearner <==> score == 0
    ensures TierOf(Percentage(score)) == KeepLearning <==> score < 0
  {
  }

  /** The score shown, `Math.round(percentage)`: exact for an even
      `score + 4`, and half up otherwise, since the percentage is a multiple of
      12.5. */
  function DisplayedScore(score: int): (r: int)
    ensures (score + 4) % 2 == 0 ==> r as real == Percentage(score)
    ensures (score + 4) % 2 == 1 ==> r as real == Percentage(score) + 0.5
  {
    var m := (score + 4) / 2;
    var odd := (score + 4) % 2;
    assert (score + 4) as real == 2.0 * m as real + odd as real;
    assert Percentage(score) == (25 * m) as real + odd as real * 12.5;
    if odd == 0 then
      assert Round(Percentage(score)) == 25 * m;
      Round(Percentage(score))
    else
      assert Round(Percentage(score)) == 25 * m + 13;
      Round(Percentage(score))
  }

  /** The choices card. */
  class SustainableChoices {
    const userId: Option<UserId>
    var currentScenario: int
    var score: int
    var selectedOption: Option<int>
    var showFeedback: bool
    var gameComplete: bool
    /** The scenario index each pending 3-second callback captured, oldest first. */
    var timeouts: seq<int>
    /** The options chosen so far, option i in scenario i. */
    ghost var choices: seq<int>

    ghost predicate Valid()
      reads this
    {
      && 0 <= currentScenario < ScenarioCount
      && |choices| == currentScenario + (if selectedOption.Some? then 1 else 0)
      && ValidChoices(choices)
      && (selectedOption.Some? ==> choices[|choices| - 1] == selectedOption.value)
      && score == ImpactSum(choices)
      && showFeedback == selectedOption.Some?
      && (gameComplete ==> selectedOption.Some? && currentScenario == ScenarioCount - 1)
      && (timeouts != [] <==> selectedOption.Some? && !gameComplete)
      && (timeouts != [] ==> timeouts == [currentScenario])
    }

    /** The initial state: the first scenario, score 0, nothing selected. */
    predicate Initial()
      reads this
    {
      currentScenario == 0 && score == 0 && selectedOption.None? && !showFeedback && !gameComplete
    }

    constructor (userId: Option<UserId>)
      ensures this.userId == userId && Initial() && timeouts == [] && Valid()
    {
      this.userId := userId;
      currentScenario := 0;
      score := 0;
      selectedOption := None;
      showFeedback := false;
      gameComplete := false;
      timeouts := [];
      choices := [];
    }

    /** `handleChoice`: ignored while an option is selected; otherwise adds the
        option's impact and schedules the advance. */
    method HandleChoice(optionIndex: int)
      requires IsOption(currentScenario, optionIndex)
      modifies this
      ensures old(selectedOption).Some? ==> unchanged(this)
      ensures old(selectedOption).None? ==>
        && selectedOption == Some(optionIndex) && showFeedback
        && score == old(score) + Impact(old(currentScenario), optionIndex)
        && timeouts == old(timeouts) + [old(currentScenario)]
        && currentScenario == old(currentScenario) && gameComplete == old(gameComplete)
      ensures old(Valid()) ==> Valid()
    {
      if selectedOption.Some? {
        return;
      }
      selectedOption := Some(optionIndex);
      choices := choices + [optionIndex];
      score := score + Impact(currentScenario, optionIndex);
      showFeedback := true;
      timeouts := timeouts + [currentScenario];
      if old(Valid()) {
        assert choices[..|choices| - 1] == old(choices);
      }
    }

    /** The 3-second callback: the next scenario, or the end of the game. */
    method Advance()
      requires timeouts != []
      modifies this
      ensures var t := old(timeouts[0]);
        && timeouts == old(timeouts[1..])
        && (t + 1 < ScenarioCount ==>
              currentScenario == t + 1 && selectedOption.None? && !showFeedback &&
              gameComplete == old(gameComplete))
        && (t + 1 >= ScenarioCount ==>
              gameComplete && currentScenario == old(currentScenario) &&
              selectedOption == old(selectedOption) && showFeedback == old(showFeedback))
      ensures score == old(score)
      ensures old(Valid()) ==> Valid()
      ensures old(Valid()) && gameComplete ==>
        |choices| == ScenarioCount && score == ImpactSum(choices) && -MaxScore <= score <= MaxScore
    {
      var t := timeouts[0];
      timeouts := timeouts[1..];
      if t + 1 < ScenarioCount {
        currentScenario := t + 1;
        selectedOption := None;
        showFeedback := false;
      } else {
        gameComplete := true;
      }
    }

    /** `resetGame`, offered on the completion card. */
    method ResetGame()
      requires gameComplete
      modifies this
      ensures Initial() && timeouts == old(timeouts)
      ensures old(Valid()) ==> Valid() && timeouts == []
    {
      currentScenario := 0;
      score := 0;
      selectedOption := None;
      showFeedback := false;
      gameComplete := false;
      choices := [];
    }
  }
}
