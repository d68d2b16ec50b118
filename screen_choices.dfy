/**
 * src/games/anagram/objects/screenChoices.ts: the laptop screen showing the
 * word and the buttons offering shuffled versions of it. The button
 * widgets and their layout are not modelled; the screen's text and the list
 * of choice texts are.
 */
module AnagramScreens {
  import opened Wrappers
  import Js
  import opened Permutations
  import opened Anagrams

  const DefaultChoicesCount: int := 4

  /** `ScreenChoicesConfig` without position and size. */
  class ScreenChoicesConfig {
    var text: string
    var choicesCount: Option<int>

    constructor (text: string, choicesCount: Option<int>)
      ensures this.text == text && this.choicesCount == choicesCount
    {
      this.text := text;
      this.choicesCount := choicesCount;
    }
  }

  /** `getValidConfig`: a falsy choice count becomes 4. */
  method GetValidConfig(config: ScreenChoicesConfig)
    modifies config
    ensures config.choicesCount == Some(Js.NumberOr(old(config.choicesCount), DefaultChoicesCount))
    ensures config.text == old(config.text)
  {
    if Js.FalsyNumber(config.choicesCount) {
      config.choicesCount := Some(DefaultChoicesCount);
    }
  }

  /** What one `Anagram.shuffle` call draws: the permutation of the letters and the index of the replacement letter. */
  datatype Draw = Draw(p: seq<nat>, randChar: nat)

  predicate ValidDraws(text: string, draws: seq<Draw>) {
    forall k :: 0 <= k < |draws| ==> IsPermutation(draws[k].p, |text|) && draws[k].randChar < |EnglishChars|
  }

  /** How often `for (let i = 1; i <= count; i++)` runs. */
  function Count(count: int): nat {
    if count > 0 then count else 0
  }

  /** The words the loop generates, in order: the i-th (from 1) has its last letter replaced unless i is the count. */
  function Generated(text: string, draws: seq<Draw>, count: int): (r: seq<string>)
    requires ValidDraws(text, draws)
    ensures |r| == |draws|
    ensures forall k :: 0 <= k < |r| ==> |r[k]| == |text|
    ensures forall k :: 0 <= k < |r| && k + 1 != count && |text| > 0 ==> 'a' <= r[k][|text| - 1] <= 'z'
  {
    seq(|draws|, k requires 0 <= k < |draws| => ShuffledWord(text, k + 1 != count, draws[k].p, draws[k].randChar))
  }

  /** The choices after `addChoices` on an empty list: the generated words, shuffled by `order`. */
  function Dealt(text: string, draws: seq<Draw>, count: int, order: seq<nat>): (r: seq<string>)
    requires ValidDraws(text, draws) && IsPermutation(order, |draws|)
    ensures |r| == |draws|
    ensures multiset(r) == multiset(Generated(text, draws, count))
  {
    PermutePreservesMultiset(Generated(text, draws, count), order);
    Permute(Generated(text, draws, count), order)
  }

  /**
   * `count` choices are dealt, they are the generated words rearranged,
   * and every word but the last generated keeps the text's length and ends
   * in a letter a-z.
   */
  lemma DealtShape(text: string, draws: seq<Draw>, count: int, order: seq<nat>)
    requires |draws| == Count(count) && ValidDraws(text, draws) && IsPermutation(order, |draws|)
    ensures |Dealt(text, draws, count, order)| == Count(count)
    ensures multiset(Dealt(text, draws, count, order)) == multiset(Generated(text, draws, count))
    ensures forall k :: 0 <= k < |draws| - 1 && |text| > 0 ==>
      var w := Generated(text, draws, count)[k];
      |w| == |text| && 'a' <= w[|w| - 1] <= 'z'
  {
    PermutePreservesMultiset(Generated(text, draws, count), order);
    forall k | 0 <= k < |draws| - 1 && |text| > 0
      ensures var w := Generated(text, draws, count)[k]; |w| == |text| && 'a' <= w[|w| - 1] <= 'z'
    {
      ShuffleReplacesLast(text, draws[k].p, draws[k].randChar);
    }
  }

  /**
   * The last generated word is a pure shuffle of the text, so among the
   * dealt choices there is always one that `check` accepts against the
   * screen's text.
   */
  lemma CorrectChoiceDealt(text: string, draws: seq<Draw>, count: int, order: seq<nat>)
    requires |draws| == Count(count) && ValidDraws(text, draws) && IsPermutation(order, |draws|)
    requires count >= 1
    ensures var last := Generated(text, draws, count)[count - 1];
      multiset(last) == multiset(text) && CountsAgree(Normalize(last), Normalize(text))
    ensures exists j :: 0 <= j < count && CountsAgree(Normalize(Dealt(text, draws, count, order)[j]), Normalize(text))
  {
    var g := Generated(text, draws, count);
    var last := ShuffledWord(text, false, draws[count - 1].p, draws[count - 1].randChar);
    assert g[count - 1] == last;
    ShufflePermutes(text, draws[count - 1].p, draws[count - 1].randChar);
    PermutationCovers(order, count, count - 1);
    var j :| 0 <= j < count && order[j] == count - 1;
    assert Dealt(text, draws, count, order)[j] == last;
  }

  class ScreenChoices {
    const choicesCount: int
    /** The screen's text. */
    var text: string
    /** The texts of the choice buttons, in button order. */
    var choices: seq<string>

    /** The constructor: the screen shows the configured text as given, and the choices are dealt from it. */
    constructor (config: ScreenChoicesConfig, draws: seq<Draw>, order: seq<nat>)
      requires |draws| == Count(Js.NumberOr(config.choicesCount, DefaultChoicesCount))
      requires ValidDraws(config.text, draws) && IsPermutation(order, |draws|)
      modifies config
      ensures config.choicesCount == Some(Js.NumberOr(old(config.choicesCount), DefaultChoicesCount))
      ensures choicesCount == config.choicesCount.value
      ensures text == old(config.text) && config.text == text
      ensures choices == Dealt(text, draws, choicesCount, order)
    {
      GetValidConfig(config);
      choicesCount := config.choicesCount.value;
      text := config.text;
      choices := [];
      new;
      AddChoices(draws, order);
    }

    /** `addChoices`: generates `choicesCount` shuffled words onto the list, then shuffles the list. */
    method AddChoices(draws: seq<Draw>, order: seq<nat>)
      requires |draws| == Count(choicesCount) && ValidDraws(text, draws)
      requires IsPermutation(order, |choices| + |draws|)
      modifies this
      ensures text == old(text)
      ensures choices == Permute(old(choices) + Generated(text, draws, choicesCount), order)
    {
      var i := 1;
      while i <= choicesCount
        invariant 1 <= i <= Count(choicesCount) + 1
        invariant text == old(text)
        invariant choices == old(choices) + Generated(text, draws[..i - 1], choicesCount)
      {
        var replaceLastChar := i != choicesCount;
        var shuffledWord := Shuffle(text, replaceLastChar, draws[i - 1].p, draws[i - 1].randChar);
        assert Generated(text, draws[..i], choicesCount) == Generated(text, draws[..i - 1], choicesCount) + [shuffledWord];
        choices := choices + [shuffledWord];
        i := i + 1;
      }
      assert draws[..i - 1] == draws;
      choices := Permute(choices, order);
    }

    /** `removeChoices`. */
    method RemoveChoices()
      modifies this
      ensures choices == [] && text == old(text)
    {
      choices := [];
    }

    /** The `text` setter: the screen upper-cases the word, and the choices are dealt anew from it. */
    method SetText(value: string, draws: seq<Draw>, order: seq<nat>)
      requires |draws| == Count(choicesCount) && ValidDraws(Js.Upper(value), draws)
      requires IsPermutation(order, |draws|)
      modifies this
      ensures text == Js.Upper(value)
      ensures choices == Dealt(text, draws, choicesCount, order)
    {
      text := Js.Upper(value);
      RemoveChoices();
      AddChoices(draws, order);
    }
  }
}
