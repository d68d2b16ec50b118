/**
 * src/games/colors/scenes/game.ts: the Colors game. A timer event spawns
 * colour words, at most three alive at a time; each shows a word's text in
 * either the word's own colour (on a fixed cadence) or another colour
 * drawn at random. Clicking a word shown in its own colour scores the
 * round; clicking any other costs a life. The engine's random draws are
 * given as indices, the parsed `words.json` as a list, and the level's
 * data payload (`durationVisibility`, `minCorrectItems`) as a value.
 */
module ColorsGames {
  import opened Wrappers
  import opened Contexts
  import opened GameBases
  import opened Healthbars
  import opened ColoredWords
  import Utils
  import Js
  import Clocks
  import ResultsDialogs

  /** No word is spawned while this many are alive. */
  const MaxLiveWords: nat := 3

  /** An entry of `words.json`. */
  datatype WordData = WordData(text: string, color: string)

  /** The fields of the level's `data` the scene reads. */
  datatype ColorsLevelData = ColorsLevelData(durationVisibility: Option<int>, minCorrectItems: int)

  /** The colours of the words, in their order, as `onCreate` collects them. */
  function ColorsOf(wordsData: seq<WordData>): (r: seq<string>)
    ensures |r| == |wordsData|
  {
    seq(|wordsData|, i requires 0 <= i < |wordsData| => wordsData[i].color)
  }

  /** `Math.floor(a / b)` for integers, with Dafny's Euclidean division made to round down. */
  function FloorDiv(a: int, b: int): (q: int)
    requires b != 0
    ensures b > 0 ==> q * b <= a < q * b + b
    ensures b < 0 ==> q * b + b < a <= q * b
  {
    if b > 0 then a / b else (-a) / (-b)
  }

  /**
   * Whether `createRandomWord` shows the word in its own colour: when
   * `elapsedSeconds % correctnessFactor === 0`, the factor being
   * `Math.floor(startTime / minCorrectItems)`. A zero factor makes the
   * remainder NaN, and a zero `minCorrectItems` makes the factor infinite
   * (NaN for a zero start time), whose remainder is the dividend itself.
   * Without a time limit, or with fewer seconds than correct items, no
   * word is shown in its own colour.
   */
  predicate ShowsOwnColor(elapsed: nat, startTime: int, minCorrectItems: int): (b: bool)
    ensures b ==> startTime != 0
    ensures 0 <= startTime < minCorrectItems ==> !b
  {
    if minCorrectItems == 0 then startTime != 0 && elapsed == 0
    else
      SmallFactor(startTime, minCorrectItems);
      var factor := FloorDiv(startTime, minCorrectItems);
      factor != 0 && elapsed % factor == 0
  }

  /** A start time of zero, or one below a positive divisor, has factor 0. */
  lemma SmallFactor(startTime: int, minCorrectItems: int)
    requires minCorrectItems != 0
    ensures startTime == 0 || 0 <= startTime < minCorrectItems ==> FloorDiv(startTime, minCorrectItems) == 0
  {
    if 0 <= startTime < minCorrectItems {
      ModUnique(startTime, minCorrectItems, 0, startTime);
    } else if startTime == 0 {
      ModUnique(0, if minCorrectItems > 0 then minCorrectItems else -minCorrectItems, 0, 0);
    }
  }

  /**
   * The cadence of the words shown in their own colour: with a time
   * limit of at least `minCorrectItems` (both positive) it is every
   * multiple of the factor, so it repeats with the factor's period, and
   * with a shorter limit it is never.
   */
  lemma OwnColorCadence(elapsed: nat, startTime: int, minCorrectItems: int)
    requires minCorrectItems > 0 && startTime >= 0
    ensures startTime < minCorrectItems ==> !ShowsOwnColor(elapsed, startTime, minCorrectItems)
    ensures startTime >= minCorrectItems ==>
      var factor := startTime / minCorrectItems;
      && factor >= 1
      && (ShowsOwnColor(elapsed, startTime, minCorrectItems) <==> exists k: nat :: k <= elapsed && elapsed == k * factor)
      && (ShowsOwnColor(elapsed + factor, startTime, minCorrectItems) <==> ShowsOwnColor(elapsed, startTime, minCorrectItems))
  {
    if startTime < minCorrectItems {
      ModUnique(startTime, minCorrectItems, 0, startTime);
      assert FloorDiv(startTime, minCorrectItems) == 0;
    } else {
      var factor := startTime / minCorrectItems;
      ModUnique(startTime - minCorrectItems, minCorrectItems, factor - 1, startTime % minCorrectItems);
      assert ShowsOwnColor(elapsed, startTime, minCorrectItems) <==> elapsed % factor == 0;
      assert ShowsOwnColor(elapsed + factor, startTime, minCorrectItems) <==> (elapsed + factor) % factor == 0;
      Multiples(elapsed, factor);
      ModUnique(elapsed + factor, factor, elapsed / factor + 1, elapsed % factor);
    }
  }

  /** A count is a multiple of f exactly when its remainder by f is 0. */
  lemma Multiples(e: nat, f: int)
    requires f >= 1
    ensures e % f == 0 <==> exists k: nat :: k <= e && e == k * f
  {
    if e % f == 0 {
      var k := e / f;
      MulAtLeast(k, f);
      assert k <= e && e == k * f;
    }
    forall k: nat | k <= e && e == k * f ensures e % f == 0 {
      ModUnique(e, f, k, 0);
    }
  }

  /** Euclidean division is determined by its quotient-remainder equation. */
  lemma ModUnique(a: int, f: int, q: int, r: int)
    requires f > 0 && 0 <= r < f && a == q * f + r
    ensures a / f == q && a % f == r
  {
    var q', r' := a / f, a % f;
    var d := q - q';
    assert d * f == r' - r by {
      assert d * f == q * f - q' * f;
    }
    SmallMultiple(d, f);
  }

  /** The only multiple of f strictly between -f and f is 0. */
  lemma SmallMultiple(d: int, f: int)
    requires f > 0 && -f < d * f < f
    ensures d == 0
  {
    if d >= 1 {
      MulAtLeast(d, f);
    } else if d <= -1 {
      MulAtLeast(-d, f);
    }
  }

  lemma MulAtLeast(d: int, f: int)
    requires d >= 0 && f > 0
    ensures d <= d * f && (d >= 1 ==> f <= d * f)
  {
    assert d * f - d == d * (f - 1);
    assert d * f - f == (d - 1) * f;
  }

  /**
   * What a click on a word then does: when its own colour has no
   * upper-case letter, the word scores exactly when it is shown in its own
   * colour rather than in another one; when it has one, a word shown in
   * its own colour never scores, as `originalColor` is lower-cased and
   * `actualColor` is not.
   */
  lemma ScoresExactlyOnOwnColor(own: string, other: string, lure: bool)
    requires own != "" && other != own
    ensures Js.Lower(own) == own ==>
      (NormalColor(Some(own)) == (if lure then own else other) <==> lure)
    ensures Js.Lower(own) != own && lure ==> NormalColor(Some(own)) != own
  {
  }

  /** What a click on a word did. */
  datatype WordCheck = Scored(newScore: int) | Missed(healthOver: bool)

  class ColorsGame {
    const base: GameBase
    const data: ColorsLevelData
    /** `_wordsData`: the parsed `words.json`. */
    const wordsData: seq<WordData>
    /** `_colors`: the words' colours. */
    var colors: seq<string>
    /** `_words`: the words alive, in spawn order. */
    var words: seq<ColoredWord>
    /** `_elapsedSeconds`: the spawn ticks so far. */
    var elapsedSeconds: nat
    /** The spawn timer event exists and is not destroyed. */
    var spawning: bool

    /** At most three words are alive, and the health bar is consistent. */
    ghost predicate Valid()
      reads this, base, base.healthbar
    {
      && |words| <= MaxLiveWords
      && base.healthbar.Valid()
    }

    /** `onCreate`, given the parsed `words.json`: each word's colour is collected in turn. */
    constructor (context: Context, data: ColorsLevelData, wordsData: seq<WordData>)
      ensures fresh(base) && base.context == context && base.score == 0
      ensures this.data == data && this.wordsData == wordsData
      ensures colors == ColorsOf(wordsData)
      ensures words == [] && elapsedSeconds == 0 && !spawning
      ensures Valid()
    {
      base := new GameBase(context);
      this.data := data;
      this.wordsData := wordsData;
      words := [];
      elapsedSeconds := 0;
      spawning := false;
      var cs := [];
      for i := 0 to |wordsData|
        invariant cs == ColorsOf(wordsData[..i])
      {
        assert ColorsOf(wordsData[..i + 1]) == ColorsOf(wordsData[..i]) + [wordsData[i].color];
        cs := cs + [wordsData[i].color];
      }
      assert wordsData[..|wordsData|] == wordsData;
      colors := cs;
    }

    /** `onBegin`: the spawn event is created and the clock starts. */
    method Begin()
      modifies this, base.clock
      ensures spawning && words == old(words) && elapsedSeconds == old(elapsedSeconds) && colors == old(colors)
      ensures base.clock.event == Some(Clocks.TimerEvent(false, false))
    {
      spawning := true;
      base.clock.Start();
    }

    /**
     * `getRandomColor`, given the engine's draws (indices into the
     * colours): the first drawn colour other than `except`. The source
     * draws until it finds one, so it never returns when every colour is
     * `except`; the model answers `None` when the given draws run out.
     */
    method GetRandomColor(except: string, draws: seq<nat>) returns (r: Option<string>)
      requires forall k :: 0 <= k < |draws| ==> draws[k] < |colors|
      ensures r.None? <==> forall k :: 0 <= k < |draws| ==> colors[draws[k]] == except
      ensures r.Some? ==> r.value != except && r.value in colors
      ensures r.Some? ==> exists k :: 0 <= k < |draws| && r.value == colors[draws[k]]
                                        && (forall m :: 0 <= m < k ==> colors[draws[m]] == except)
      ensures (forall i :: 0 <= i < |colors| ==> colors[i] == except) ==> r.None?
    {
      if |draws| == 0 {
        return None;
      }
      var randColor := colors[draws[0]];
      var k := 1;
      while randColor == except
        invariant 1 <= k <= |draws|
        invariant randColor == colors[draws[k - 1]]
        invariant forall m :: 0 <= m < k - 1 ==> colors[draws[m]] == except
        decreases |draws| - k
      {
        if k == |draws| {
          return None;
        }
        randColor := colors[draws[k]];
        k := k + 1;
      }
      return Some(randColor);
    }

    /**
     * `createRandomWord`: the word `wordsData[pick]`, shown in its own
     * colour on the cadence `ShowsOwnColor` describes and otherwise in the
     * random other colour.
     */
    method CreateRandomWord(pick: nat, draws: seq<nat>) returns (w: ColoredWord)
      requires pick < |wordsData|
      requires forall k :: 0 <= k < |draws| ==> draws[k] < |colors|
      requires exists k :: 0 <= k < |draws| && colors[draws[k]] != wordsData[pick].color
      ensures fresh(w)
      ensures w.text == Js.Upper(wordsData[pick].text)
      ensures w.originalColor == NormalColor(Some(wordsData[pick].color))
      ensures w.visibilityDuration == Js.NumberOr(data.durationVisibility, DefaultVisibilityDuration)
      ensures ShowsOwnColor(elapsedSeconds, base.clock.startTime, data.minCorrectItems) ==> w.actualColor == wordsData[pick].color
      ensures !ShowsOwnColor(elapsedSeconds, base.clock.startTime, data.minCorrectItems) ==>
        w.actualColor != wordsData[pick].color && w.actualColor in colors
    {
      var randWord := wordsData[pick];
      var randColor := GetRandomColor(randWord.color, draws);
      if randColor.None? {
        assert false;
      }
      var displayColor := randColor.value;
      if ShowsOwnColor(elapsedSeconds, base.clock.startTime, data.minCorrectItems) {
        displayColor := randWord.color;
      }
      var config := new ColoredWordConfig(randWord.text, Some(randWord.color), data.durationVisibility, Some(TextStyle(Some(displayColor))));
      w := new ColoredWord(config);
    }

    /**
     * `spawnWords`, the spawn event's callback: the tick is counted; with
     * fewer than three words alive the round is worth the level's award
     * again and a new word joins the live ones.
     */
    method SpawnWords(pick: nat, draws: seq<nat>) returns (spawned: Option<ColoredWord>)
      requires Valid() && base.currentLevel.Some?
      requires |words| < MaxLiveWords ==>
        && pick < |wordsData|
        && (forall k :: 0 <= k < |draws| ==> draws[k] < |colors|)
        && (exists k :: 0 <= k < |draws| && colors[draws[k]] != wordsData[pick].color)
      modifies this, base
      ensures Valid() && elapsedSeconds == old(elapsedSeconds) + 1
      ensures colors == old(colors) && spawning == old(spawning)
      ensures base.score == old(base.score) && base.currentLevel == old(base.currentLevel)
      ensures spawned.None? <==> old(|words|) >= MaxLiveWords
      ensures spawned.None? ==> words == old(words) && base.roundScore == old(base.roundScore)
      ensures spawned.Some? ==>
        && fresh(spawned.value)
        && words == old(words) + [spawned.value]
        && base.roundScore == base.currentLevel.value.awardPoints
        && spawned.value.text == Js.Upper(wordsData[pick].text)
        && spawned.value.originalColor == NormalColor(Some(wordsData[pick].color))
        && (spawned.value.actualColor == wordsData[pick].color
              <== ShowsOwnColor(elapsedSeconds, base.clock.startTime, data.minCorrectItems))
        && (spawned.value.actualColor != wordsData[pick].color
              <== !ShowsOwnColor(elapsedSeconds, base.clock.startTime, data.minCorrectItems))
    {
      elapsedSeconds := elapsedSeconds + 1;
      if |words| >= MaxLiveWords {
        return None;
      }
      base.roundScore := base.currentLevel.value.awardPoints;
      var randWord := CreateRandomWord(pick, draws);
      words := words + [randWord];
      spawned := Some(randWord);
    }

    /** The end of a word's visibility tween: it leaves the live words. */
    method WordTimedOut(w: ColoredWord)
      requires Valid()
      modifies this
      ensures Valid() && words == Utils.RemoveFromArray(old(words), w)
      ensures colors == old(colors) && elapsedSeconds == old(elapsedSeconds) && spawning == old(spawning)
    {
      Utils.RemoveLength(words, w);
      words := Utils.RemoveFromArray(words, w);
    }

    /**
     * `showGameResults`, run when the clock or the health runs out: the
     * clock is reset, the spawn event destroyed and the results shown.
     */
    method ShowGameResults() returns (view: Result<ResultsDialogs.ResultsView>)
      modifies this, base.clock
      ensures !spawning && words == old(words) && elapsedSeconds == old(elapsedSeconds) && colors == old(colors)
      ensures view == ResultsDialogs.ShowModal(base.context.levels, base.context.sessionData, base.score)
      ensures old(base.clock.event).Some? ==> base.clock.event == Some(old(base.clock.event).value.(destroyed := true))
    {
      view := base.ShowGameResults();
      spawning := false;
    }

    /**
     * `checkWordColor`, a click on word w: a word shown in its own colour
     * adds the round's score; any other costs a life, and the last life
     * ends the game. Either way the word leaves the live words.
     */
    method CheckWordColor(w: ColoredWord) returns (v: WordCheck, results: Option<Result<ResultsDialogs.ResultsView>>)
      requires Valid()
      modifies this, base, base.healthbar, base.clock
      ensures Valid() && words == Utils.RemoveFromArray(old(words), w)
      ensures colors == old(colors) && elapsedSeconds == old(elapsedSeconds)
      ensures v.Scored? <==> w.actualColor == w.originalColor
      ensures v.Scored? ==> base.score == old(base.score) + old(base.roundScore) && v.newScore == base.score
      ensures v.Scored? ==> base.healthbar.health == old(base.healthbar.health) && results.None?
      ensures v.Missed? ==>
        && base.score == old(base.score)
        && base.healthbar.health == KillStep(old(base.healthbar.health)).health
        && v.healthOver == KillStep(old(base.healthbar.health)).healthOver
      ensures results.Some? <==> v.Missed? && v.healthOver
      ensures results.Some? ==> !spawning && results.value == ResultsDialogs.ShowModal(base.context.levels, base.context.sessionData, base.score)
      ensures results.None? ==> spawning == old(spawning)
      ensures base.roundScore == old(base.roundScore) && base.currentLevel == old(base.currentLevel)
    {
      results := None;
      if w.actualColor == w.originalColor {
        var newScore := base.AddScore(base.roundScore);
        v := Scored(newScore);
      } else {
        var _, over := base.healthbar.KillHealth();
        if over {
          var view := ShowGameResults();
          results := Some(view);
        }
        v := Missed(over);
      }
      Utils.RemoveLength(words, w);
      words := Utils.RemoveFromArray(words, w);
    }

    /** `onDispose`: no word is alive, the spawn event is gone and the tick count starts over. */
    method OnDispose()
      requires Valid()
      modifies this, base, base.clock
      ensures Valid() && words == [] && !spawning && elapsedSeconds == 0 && colors == old(colors)
      ensures base.score == 0 && base.currentLevel == old(base.currentLevel)
    {
      base.OnDispose();
      words := [];
      spawning := false;
      elapsedSeconds := 0;
    }
  }
}
