/**
 * src/core/objects/clock.ts: the countdown shown in the HUD. The engine's
 * looping timer event is a value that says whether it is paused and
 * whether it was destroyed; each of its one-second callbacks is a call of
 * `UpdateTimer`.
 */
module Clocks {
  import opened Wrappers
  import Js

  const DefaultStartTime: int := 45

  /** `TimerConfig` without position, icon and style. */
  class TimerConfig {
    var startTime: Option<int>
    var startImmediately: Option<bool>

    constructor (startTime: Option<int>, startImmediately: Option<bool>)
      ensures this.startTime == startTime && this.startImmediately == startImmediately
    {
      this.startTime := startTime;
      this.startImmediately := startImmediately;
    }
  }

  /** `getValidConfig`: a falsy start time becomes 45 and a missing `startImmediately` false. */
  method GetValidConfig(config: TimerConfig)
    modifies config
    ensures config.startTime == Some(Js.NumberOr(old(config.startTime), DefaultStartTime))
    ensures config.startImmediately == Some(old(config.startImmediately) == Some(true))
  {
    if Js.FalsyNumber(config.startTime) {
      config.startTime := Some(DefaultStartTime);
    }
    if config.startImmediately != Some(true) {
      config.startImmediately := Some(false);
    }
  }

  /** A Phaser timer event: whether it is paused and whether `destroy` was called on it. */
  datatype TimerEvent = TimerEvent(paused: bool, destroyed: bool)

  /** What one tick does to the value: the new value and whether `onTimerCompleted` ran. */
  datatype Tick = Tick(value: int, completed: bool)

  /**
   * A tick above 0 counts down by one; a tick at 0 (or below) completes the
   * timer and the reset that follows puts the start time back.
   */
  function TickStep(value: int, startTime: int): (t: Tick)
    ensures value > 0 ==> t == Tick(value - 1, false)
    ensures value <= 0 ==> t == Tick(startTime, true)
  {
    if value > 0 then Tick(value - 1, false) else Tick(startTime, true)
  }

  /** The value after n ticks. */
  function ValueAfter(value: int, startTime: int, n: nat): int
    decreases n
  {
    if n == 0 then value else ValueAfter(TickStep(value, startTime).value, startTime, n - 1)
  }

  /** The number of completions during n ticks. */
  function CompletionsIn(value: int, startTime: int, n: nat): nat
    decreases n
  {
    if n == 0 then 0
    else (if TickStep(value, startTime).completed then 1 else 0) + CompletionsIn(TickStep(value, startTime).value, startTime, n - 1)
  }

  /**
   * From a value v >= 0 the first v ticks count down to 0 without completing,
   * and completion fires on tick v + 1, one tick after 0 was shown, leaving
   * the start time. (The reset destroys the event, so no tick follows.)
   */
  lemma {:induction false} CompletesOneTickAfterZero(v: nat, startTime: int, n: nat)
    requires n <= v + 1
    ensures ValueAfter(v, startTime, n) == if n <= v then v - n else startTime
    ensures CompletionsIn(v, startTime, n) == if n <= v then 0 else 1
    decreases n
  {
    if n > 0 && v > 0 {
      CompletesOneTickAfterZero(v - 1, startTime, n - 1);
    }
  }

  /**
   * `getFormatedTimerValue`: characters 14..19 of the ISO date of t
   * seconds after the epoch, that is MM:SS of t modulo one hour. The range
   * is that of dates with a four-digit year, where the ISO text has a fixed
   * layout.
   */
  function FormattedTimerValue(t: int): (s: string)
    requires -62167219200 <= t < 253402300800
    ensures |s| == 5 && s[2] == ':'
    ensures Js.AllDigits(s[..2]) && Js.AllDigits(s[3..])
    ensures Js.DigitValue(s[0]) * 10 + Js.DigitValue(s[1]) == (t % 3600) / 60
    ensures Js.DigitValue(s[3]) * 10 + Js.DigitValue(s[4]) == t % 60
  {
    var minutes := (t % 3600) / 60;
    var seconds := t % 60;
    MinuteOfHour(t);
    Js.Pad2(minutes) + [':'] + Js.Pad2(seconds)
  }

  /** Below one hour the minutes and seconds shown give back t; hours are dropped beyond it. */
  lemma FormattedReadsBack(t: int)
    requires -62167219200 <= t < 253402300800
    ensures var s := FormattedTimerValue(t);
      (Js.DigitValue(s[0]) * 10 + Js.DigitValue(s[1])) * 60 + Js.DigitValue(s[3]) * 10 + Js.DigitValue(s[4]) == t % 3600
    ensures 0 <= t < 3600 ==>
      var s := FormattedTimerValue(t);
      (Js.DigitValue(s[0]) * 10 + Js.DigitValue(s[1])) * 60 + Js.DigitValue(s[3]) * 10 + Js.DigitValue(s[4]) == t
  {
    var s := FormattedTimerValue(t);
    var r := t % 3600;
    MinuteOfHour(t);
    assert r == (r / 60) * 60 + r % 60;
    assert 0 <= t < 3600 ==> r == t;
  }

  /** The seconds of t are those of t modulo one hour. */
  lemma MinuteOfHour(t: int)
    ensures t % 60 == (t % 3600) % 60
  {
    var q := t / 3600;
    var r := t % 3600;
    assert t == q * 3600 + r;
    assert t == (q * 60) * 60 + r;
  }

  class Clock {
    const startTime: int
    var value: int
    var event: Option<TimerEvent>

    /** The constructor: the value starts at the start time; `startImmediately` starts the timer. */
    constructor (config: TimerConfig)
      modifies config
      ensures config.startTime == Some(Js.NumberOr(old(config.startTime), DefaultStartTime))
      ensures config.startImmediately == Some(old(config.startImmediately) == Some(true))
      ensures startTime == config.startTime.value && value == startTime
      ensures event == if config.startImmediately == Some(true) then Some(TimerEvent(false, false)) else None
    {
      GetValidConfig(config);
      startTime := config.startTime.value;
      value := config.startTime.value;
      event := None;
      new;
      if config.startImmediately == Some(true) {
        Start();
      }
    }

    /** The `paused` getter: false when no timer event exists. */
    function Paused(): (p: bool)
      reads this
      ensures p <==> event.Some? && event.value.paused
    {
      match event
      case Some(e) => e.paused
      case None => false
    }

    /** The `paused` setter: a no-op without a timer event. */
    method SetPaused(p: bool)
      modifies this
      ensures event == if old(event).Some? then Some(old(event).value.(paused := p)) else None
      ensures value == old(value)
    {
      if event.Some? {
        event := Some(event.value.(paused := p));
      }
    }

    /** `start`: a new looping one-second event. */
    method Start()
      modifies this
      ensures event == Some(TimerEvent(false, false)) && value == old(value)
    {
      event := Some(TimerEvent(false, false));
    }

    method Pause()
      modifies this
      ensures event == if old(event).Some? then Some(old(event).value.(paused := true)) else None
      ensures value == old(value)
    {
      if Paused() {
        return;
      }
      SetPaused(true);
    }

    method Resume()
      modifies this
      ensures event == if old(event).Some? then Some(old(event).value.(paused := false)) else None
      ensures value == old(value)
    {
      if !Paused() {
        return;
      }
      SetPaused(false);
    }

    /** `reset`: with a timer event, destroys it and restores the start time; otherwise nothing. */
    method Reset()
      modifies this
      ensures old(event).Some? ==> event == Some(old(event).value.(destroyed := true)) && value == startTime
      ensures old(event).None? ==> event == None && value == old(value)
    {
      if event.Some? {
        event := Some(event.value.(destroyed := true));
        value := startTime;
      }
    }

    /**
     * `updateTimer`, run by the live, unpaused timer event once a second.
     * `completed` tells whether `onTimerCompleted` ran; `tick` is the value
     * passed to `onTickChanged`, always the value after the tick.
     */
    method UpdateTimer() returns (completed: bool, tick: int)
      requires event.Some? && !event.value.paused && !event.value.destroyed
      modifies this
      ensures Tick(value, completed) == TickStep(old(value), startTime)
      ensures tick == value
      ensures completed ==> event == Some(TimerEvent(false, true))
      ensures !completed ==> event == old(event)
    {
      completed := false;
      if value > 0 {
        value := value - 1;
      } else {
        completed := true;
        Reset();
      }
      tick := value;
    }
  }
}
