/**
 * src/core/scenes/gameBase.ts: the state every game scene shares, that is
 * the score, the score the current round is worth, the current level, the
 * countdown clock and the health bar. The HUD labels, buttons and tweens are
 * not modelled.
 */
module GameBases {
  import opened Wrappers
  import opened Levels
  import opened Contexts
  import opened Clocks
  import opened Healthbars
  import ResultsDialogs
  import Js

  /** The health amount every game scene asks for. */
  const SceneHealthAmount: int := 3

  function Max(a: int, b: int): int {
    if a >= b then a else b
  }

  /**
   * `calcRoundScore`: one timer tick charges the round score, but never
   * below the level's minimum. The result is the larger of the minimum and
   * the charged score, even when the round score started below the minimum.
   */
  function Charged(roundScore: int, level: Level): (r: int)
    ensures r >= level.minPoints && r >= roundScore - level.chargePoints
    ensures r == level.minPoints || r == roundScore - level.chargePoints
  {
    if roundScore - level.chargePoints > level.minPoints then roundScore - level.chargePoints else level.minPoints
  }

  /** The round score after k timer ticks. */
  function ChargedAfter(roundScore: int, level: Level, k: nat): int
    decreases k
  {
    if k == 0 then roundScore else ChargedAfter(Charged(roundScore, level), level, k - 1)
  }

  /**
   * With a non-negative charge, k >= 1 ticks charge the round score k times
   * and then clamp once: the minimum is reached after finitely many ticks
   * and kept from then on.
   */
  lemma {:induction false} ChargedTicks(roundScore: int, level: Level, k: nat)
    requires k >= 1 && level.chargePoints >= 0
    ensures ChargedAfter(roundScore, level, k) == Max(level.minPoints, roundScore - k * level.chargePoints)
    decreases k
  {
    var c := level.chargePoints;
    if k > 1 {
      var once := Charged(roundScore, level);
      ChargedTicks(once, level, k - 1);
      assert roundScore - k * c == (roundScore - c) - (k - 1) * c;
      if roundScore - c <= level.minPoints {
        assert (k - 1) * c >= 0;
      }
    }
  }

  class GameBase {
    const context: Context
    const clock: Clock
    const healthbar: Healthbar
    var score: int
    var roundScore: int
    /** `undefined` until `onInit` has resolved the level. */
    var currentLevel: Option<Level>

    /**
     * The constructor, joined with the allocations `onCreate` makes: the
     * clock counts down from the game's timer limit and the health bar
     * holds three lives.
     */
    constructor (context: Context)
      ensures this.context == context
      ensures score == 0 && roundScore == 0 && currentLevel == None
      ensures fresh(clock) && fresh(healthbar)
      ensures clock.startTime == Js.NumberOr(context.config.timerLimit, DefaultStartTime)
      ensures clock.value == clock.startTime && clock.event == None
      ensures healthbar.healthAmount == SceneHealthAmount && healthbar.health == SceneHealthAmount
      ensures healthbar.Valid()
    {
      this.context := context;
      score := 0;
      roundScore := 0;
      currentLevel := None;
      var timerConfig := new TimerConfig(context.config.timerLimit, None);
      clock := new Clock(timerConfig);
      var healthConfig := new HealthbarConfig(Some(SceneHealthAmount), None);
      healthbar := new Healthbar(healthConfig);
    }

    /**
     * `onInit`: no levels is an error; otherwise the current level is
     * resolved from the session (which may fail too) and the round is worth
     * that level's award.
     */
    method OnInit() returns (r: Outcome)
      modifies this
      ensures r.Pass? <==> CurrentLevel(context.levels, context.sessionData).Success?
      ensures |context.levels| == 0 ==> r == Fail(NoLevelsError)
      ensures r.Fail? ==>
        && r.error == CurrentLevel(context.levels, context.sessionData).error
        && currentLevel == old(currentLevel) && roundScore == old(roundScore)
      ensures r.Pass? ==>
        && currentLevel == Some(CurrentLevel(context.levels, context.sessionData).value)
        && roundScore == currentLevel.value.awardPoints
      ensures score == old(score)
    {
      if |context.levels| < 1 {
        return Fail(NoLevelsError);
      }
      var current := CurrentLevel(context.levels, context.sessionData);
      if current.Failure? {
        return Fail(current.error);
      }
      currentLevel := Some(current.value);
      roundScore := current.value.awardPoints;
      r := Pass;
    }

    /** `addScore`: the score grows by v and the new score is returned. */
    method AddScore(v: int) returns (newScore: int)
      modifies this
      ensures score == old(score) + v && newScore == score
      ensures roundScore == old(roundScore) && currentLevel == old(currentLevel)
    {
      newScore := score + v;
      score := newScore;
    }

    /** `calcRoundScore`, which `handleTimer` runs on every tick the clock reports. */
    method CalcRoundScore()
      requires currentLevel.Some?
      modifies this
      ensures score == old(score) && currentLevel == old(currentLevel)
      ensures roundScore == Charged(old(roundScore), currentLevel.value)
    {
      var chargePoints := currentLevel.value.chargePoints;
      if roundScore - chargePoints > currentLevel.value.minPoints {
        roundScore := roundScore - chargePoints;
      } else {
        roundScore := currentLevel.value.minPoints;
      }
    }

    /**
     * One callback of the clock's timer event: `updateTimer`, whose
     * `onTickChanged` runs `handleTimer`. `completed` tells whether
     * `onTimerCompleted` ran, on which a game shows its results.
     */
    method ClockTick() returns (completed: bool)
      requires currentLevel.Some?
      requires clock.event.Some? && !clock.event.value.paused && !clock.event.value.destroyed
      modifies this, clock
      ensures Tick(clock.value, completed) == TickStep(old(clock.value), clock.startTime)
      ensures completed ==> clock.event == Some(TimerEvent(false, true))
      ensures !completed ==> clock.event == old(clock.event)
      ensures score == old(score) && currentLevel == old(currentLevel)
      ensures roundScore == Charged(old(roundScore), currentLevel.value)
    {
      var tick;
      completed, tick := clock.UpdateTimer();
      CalcRoundScore();
    }

    /** `onCompleteHandler`: the clock is reset and the score goes back to 0. */
    method OnCompleteHandler()
      modifies this, clock
      ensures score == 0 && roundScore == old(roundScore) && currentLevel == old(currentLevel)
      ensures old(clock.event).Some? ==> clock.event == Some(old(clock.event).value.(destroyed := true)) && clock.value == clock.startTime
      ensures old(clock.event).None? ==> clock.event == None && clock.value == old(clock.value)
    {
      clock.Reset();
      score := 0;
    }

    /** `onDispose`: the score goes back to 0 and the clock is reset. */
    method OnDispose()
      modifies this, clock
      ensures score == 0 && roundScore == old(roundScore) && currentLevel == old(currentLevel)
      ensures old(clock.event).Some? ==> clock.event == Some(old(clock.event).value.(destroyed := true)) && clock.value == clock.startTime
      ensures old(clock.event).None? ==> clock.event == None && clock.value == old(clock.value)
    {
      score := 0;
      clock.Reset();
    }

    /**
     * A game's `showGameResults`: the clock is reset and the results dialog
     * opens on this game's score.
     */
    method ShowGameResults() returns (view: Result<ResultsDialogs.ResultsView>)
      modifies clock
      ensures view == ResultsDialogs.ShowModal(context.levels, context.sessionData, score)
      ensures old(clock.event).Some? ==> clock.event == Some(old(clock.event).value.(destroyed := true)) && clock.value == clock.startTime
      ensures old(clock.event).None? ==> clock.event == None && clock.value == old(clock.value)
    {
      clock.Reset();
      view := ResultsDialogs.ShowModal(context.levels, context.sessionData, score);
    }

    /**
     * The clock's timer callback in a game whose `onTimerCompleted` shows
     * the results, as every game here does: the tick, and on completion the
     * results dialog on the score reached.
     */
    method TimerCallback() returns (results: Option<Result<ResultsDialogs.ResultsView>>)
      requires currentLevel.Some?
      requires clock.event.Some? && !clock.event.value.paused && !clock.event.value.destroyed
      modifies this, clock
      ensures clock.value == TickStep(old(clock.value), clock.startTime).value
      ensures results.Some? <==> TickStep(old(clock.value), clock.startTime).completed
      ensures results.Some? ==>
        && results.value == ResultsDialogs.ShowModal(context.levels, context.sessionData, score)
        && clock.event == Some(TimerEvent(false, true))
      ensures results.None? ==> clock.event == old(clock.event)
      ensures score == old(score) && currentLevel == old(currentLevel)
      ensures roundScore == Charged(old(roundScore), currentLevel.value)
    {
      var completed := ClockTick();
      if completed {
        var view := ShowGameResults();
        results := Some(view);
      } else {
        results := None;
      }
    }
  }
}
