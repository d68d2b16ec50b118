/**
 * src/games/anagram/scenes/game.ts: the anagram game's rounds. A round
 * shows a word and its choices; a choice that is an anagram of the word
 * scores the round, any other costs a life. The handler of a click is
 * split at its `await`: `CheckWord` runs up to the wrong-answer overlay
 * and `WrongResultShown` runs after it, so that the in-progress flag guards
 * the clicks that arrive while the overlay is up.
 */
module AnagramGames {
  import opened Wrappers
  import opened Levels
  import opened Contexts
  import opened GameBases
  import opened Healthbars
  import opened Anagrams
  import opened AnagramScreens
  import opened Permutations
  import ResultsDialogs
  import Js

  /** What a click on a choice did. */
  datatype Verdict = Ignored | Wrong | Correct

  class AnagramGame {
    const base: GameBase
    const screenChoices: ScreenChoices
    var isCheckingWord: bool

    ghost predicate Valid()
      reads this, base, base.healthbar
    {
      base.healthbar.Valid()
    }

    /** The scene and its `onCreate`: an empty screen with four choices of the empty word. */
    constructor (context: Context, draws: seq<Draw>, order: seq<nat>)
      requires |draws| == DefaultChoicesCount && ValidDraws("", draws) && IsPermutation(order, |draws|)
      ensures fresh(base) && fresh(screenChoices)
      ensures base.context == context && base.score == 0 && base.roundScore == 0
      ensures !isCheckingWord
      ensures screenChoices.text == "" && screenChoices.choicesCount == DefaultChoicesCount
      ensures screenChoices.choices == Dealt("", draws, DefaultChoicesCount, order)
      ensures Valid()
    {
      base := new GameBase(context);
      isCheckingWord := false;
      var config := new ScreenChoicesConfig("", None);
      screenChoices := new ScreenChoices(config, draws, order);
    }

    /**
     * `startNewRound`, with the fetched word given: the round is worth the
     * level's award again and the screen shows the word with new choices.
     */
    method StartNewRound(word: string, draws: seq<Draw>, order: seq<nat>)
      requires base.currentLevel.Some?
      requires |draws| == Count(screenChoices.choicesCount) && ValidDraws(Js.Upper(word), draws)
      requires IsPermutation(order, |draws|)
      modifies base, screenChoices
      ensures base.score == old(base.score) && base.currentLevel == old(base.currentLevel)
      ensures base.roundScore == base.currentLevel.value.awardPoints
      ensures screenChoices.text == Js.Upper(word)
      ensures screenChoices.choices == Dealt(screenChoices.text, draws, screenChoices.choicesCount, order)
    {
      base.roundScore := base.currentLevel.value.awardPoints;
      screenChoices.SetText(word, draws, order);
    }

    /**
     * `checkWord` up to its `await`. A click while a check is running is
     * ignored. Otherwise the choice's text is checked against the screen's:
     * a wrong choice leaves the check running until the overlay is done;
     * a right one ends it and `completeRound` adds the round's score.
     */
    method CheckWord(word: string) returns (v: Verdict)
      modifies this, base
      ensures old(isCheckingWord) ==> v == Ignored && isCheckingWord
      ensures !old(isCheckingWord) ==>
        (v == Correct <==> CountsAgree(Normalize(word), Normalize(screenChoices.text)))
      ensures v == Wrong ==> isCheckingWord
      ensures v == Correct ==> !isCheckingWord && base.score == old(base.score) + old(base.roundScore)
      ensures v != Correct ==> base.score == old(base.score)
      ensures base.roundScore == old(base.roundScore) && base.currentLevel == old(base.currentLevel)
    {
      if isCheckingWord {
        return Ignored;
      }
      isCheckingWord := true;
      var isAnagram := Check(word, screenChoices.text);
      if !isAnagram {
        return Wrong;
      }
      isCheckingWord := false;
      var _ := base.AddScore(base.roundScore);
      v := Correct;
    }

    /** A click on the j-th choice button checks that choice's text. */
    method ClickChoice(j: nat) returns (v: Verdict)
      requires j < |screenChoices.choices|
      modifies this, base
      ensures !old(isCheckingWord) ==>
        (v == Correct <==> CountsAgree(Normalize(screenChoices.choices[j]), Normalize(screenChoices.text)))
      ensures old(isCheckingWord) ==> v == Ignored
      ensures v == Correct ==> base.score == old(base.score) + old(base.roundScore)
      ensures v != Correct ==> base.score == old(base.score)
    {
      v := CheckWord(screenChoices.choices[j]);
    }

    /**
     * The rest of `checkWord` after a wrong choice: one life is lost, which
     * shows the results when it was the last, and the check ends.
     */
    method WrongResultShown() returns (healthOver: bool, results: Option<Result<ResultsDialogs.ResultsView>>)
      requires Valid() && isCheckingWord
      modifies this, base.healthbar, base.clock
      ensures Valid() && !isCheckingWord
      ensures base.healthbar.health == KillStep(old(base.healthbar.health)).health
      ensures healthOver == KillStep(old(base.healthbar.health)).healthOver
      ensures results.Some? <==> healthOver
      ensures healthOver ==> results.value == ResultsDialogs.ShowModal(base.context.levels, base.context.sessionData, base.score)
    {
      var _, over := base.healthbar.KillHealth();
      healthOver := over;
      if healthOver {
        var view := base.ShowGameResults();
        results := Some(view);
      } else {
        results := None;
      }
      isCheckingWord := false;
    }
  }

  /**
   * In a round the screen holds the upper-cased word and some choice is
   * accepted: whatever the shuffles drew, the round can be won with the
   * default four choices.
   */
  lemma RoundWinnable(word: string, draws: seq<Draw>, order: seq<nat>)
    requires |draws| == DefaultChoicesCount && ValidDraws(Js.Upper(word), draws)
    requires IsPermutation(order, |draws|)
    ensures exists j ::
      && 0 <= j < DefaultChoicesCount
      && CountsAgree(Normalize(Dealt(Js.Upper(word), draws, DefaultChoicesCount, order)[j]), Normalize(Js.Upper(word)))
  {
    CorrectChoiceDealt(Js.Upper(word), draws, DefaultChoicesCount, order);
  }
}
