/**
 * src/core/context.ts: the registry of a game's levels and scenes, and the
 * lookup of the current and the next level from the session.
 */
module Contexts {
  import opened Wrappers
  import opened Levels

  /** `GameConfig`; `category` is the enum's name. */
  datatype GameConfig = GameConfig(gameId: string, displayName: string, category: string, timerLimit: Option<int>)

  /**
   * `SessionData` as the launcher passes it. `level` is a number: 0 stands
   * for missing (falsy); NaN is not modelled.
   */
  datatype SessionData = SessionData(
    gameId: string,
    playerId: string,
    sessionId: string,
    rank: int,
    highscore: int,
    level: int,
    timestamp: Option<int>,
    signature: Option<string>)

  /** A scene class registered under a key, by its name. */
  type SceneClass = string

  const NoLevelsError: string := "Not defined any levels, add at least one game's level"
  const UnknownLevelError: string := "Passed undefined level as an argument to the game's query"

  /** `levels.findIndex(l => l.value === v)`: the first index with that value, or -1. */
  function FindIndex(levels: seq<Level>, v: int): (i: int)
    ensures -1 <= i < |levels|
    ensures i == -1 <==> forall k :: 0 <= k < |levels| ==> levels[k].value != v
    ensures 0 <= i ==> levels[i].value == v && forall k :: 0 <= k < i ==> levels[k].value != v
  {
    if |levels| == 0 then -1
    else if levels[0].value == v then 0
    else
      var j := FindIndex(levels[1..], v);
      if j == -1 then -1 else j + 1
  }

  /** The session's level is truthy (`sessionData?.level`). */
  predicate NamesLevel(session: Option<SessionData>) {
    session.Some? && session.value.level != 0
  }

  /** `getCurrentLevel`. */
  function CurrentLevel(levels: seq<Level>, session: Option<SessionData>): (r: Result<Level>)
    ensures |levels| == 0 ==> r == Failure(NoLevelsError)
    ensures |levels| > 0 && !NamesLevel(session) ==> r == Success(levels[0])
    ensures |levels| > 0 && NamesLevel(session) ==>
      (r.Failure? <==> forall k :: 0 <= k < |levels| ==> levels[k].value != session.value.level)
    ensures NamesLevel(session) && r.Success? ==>
      exists i ::
        && 0 <= i < |levels| && levels[i] == r.value && r.value.value == session.value.level
        && forall k :: 0 <= k < i ==> levels[k].value != session.value.level
    ensures r.Failure? ==> r.error == NoLevelsError || r.error == UnknownLevelError
  {
    if |levels| < 1 then Failure(NoLevelsError)
    else if NamesLevel(session) then
      var i := FindIndex(levels, session.value.level);
      if i == -1 then Failure(UnknownLevelError) else Success(levels[i])
    else Success(levels[0])
  }

  /** `getNextLevel`: the level after the current one, or the current one when it is last. */
  function NextLevel(levels: seq<Level>, session: Option<SessionData>): (r: Result<Level>)
    ensures r.Failure? <==> CurrentLevel(levels, session).Failure?
    ensures r.Failure? ==> r == CurrentLevel(levels, session)
    ensures r.Success? ==>
      var current := CurrentLevel(levels, session).value;
      var i := FindIndex(levels, current.value);
      && 0 <= i < |levels|
      && (i < |levels| - 1 ==> r.value == levels[i + 1])
      && (i == |levels| - 1 ==> r.value == current)
  {
    var current :- CurrentLevel(levels, session);
    var index := FindIndex(levels, current.value);
    assert index != -1 by {
      assert current in levels;
    }
    if index != |levels| - 1 then Success(levels[index + 1]) else Success(current)
  }

  /** Level values are start, start+1, ... in order, as registration makes them. */
  predicate ConsecutiveFrom(levels: seq<Level>, start: int) {
    forall i :: 0 <= i < |levels| ==> levels[i].value == start + i
  }

  lemma {:induction false} FindIndexConsecutive(levels: seq<Level>, start: int, v: int)
    requires ConsecutiveFrom(levels, start)
    ensures FindIndex(levels, v) == if start <= v < start + |levels| then v - start else -1
    decreases |levels|
  {
    if |levels| > 0 && levels[0].value != v {
      assert ConsecutiveFrom(levels[1..], start + 1);
      FindIndexConsecutive(levels[1..], start + 1, v);
    }
  }

  /** With levels numbered 1..n, the session level v selects levels[v-1], or fails outside 1..n. */
  lemma CurrentLevelNumbered(levels: seq<Level>, session: SessionData)
    requires |levels| > 0 && ConsecutiveFrom(levels, 1)
    ensures var v := session.level;
      CurrentLevel(levels, Some(session)) ==
        if v == 0 then Success(levels[0])
        else if 1 <= v <= |levels| then Success(levels[v - 1])
        else Failure(UnknownLevelError)
  {
    FindIndexConsecutive(levels, 1, session.level);
  }

  /**
   * With levels numbered 1..n, the level after v is v+1, and the level after
   * the last is the last: the lookup is clamped and never wraps around.
   */
  lemma NextLevelNumbered(levels: seq<Level>, session: SessionData)
    requires |levels| > 0 && ConsecutiveFrom(levels, 1)
    requires 1 <= session.level <= |levels|
    ensures var v := session.level;
      NextLevel(levels, Some(session)) == Success(if v < |levels| then levels[v] else levels[v - 1])
  {
    FindIndexConsecutive(levels, 1, session.level);
  }

  /** With no session level the next level is the second one, if there is one. */
  lemma NextLevelWithoutSession(levels: seq<Level>)
    requires |levels| > 0 && ConsecutiveFrom(levels, 1)
    ensures NextLevel(levels, None) == Success(if |levels| > 1 then levels[1] else levels[0])
  {
    FindIndexConsecutive(levels, 1, 1);
  }

  /** `Context`: the registry that the bootstrapper fills and every scene reads. */
  class Context {
    const assetsPath: string
    const bootstrapper: string
    const config: GameConfig
    var levels: seq<Level>
    var scenes: map<string, SceneClass>
    var sessionData: Option<SessionData>
    var callbackUrl: Option<string>

    constructor (config: GameConfig, bootScene: string)
      ensures assetsPath == "assets/" + config.gameId
      ensures bootstrapper == bootScene && this.config == config
      ensures levels == [] && scenes == map[]
      ensures sessionData == None && callbackUrl == None
    {
      assetsPath := "assets/" + config.gameId;
      bootstrapper := bootScene;
      this.config := config;
      levels := [];
      scenes := map[];
      sessionData := None;
      callbackUrl := None;
    }

    function GetCurrentLevel(): (r: Result<Level>)
      reads this
      ensures |levels| == 0 ==> r == Failure(NoLevelsError)
      ensures r.Success? ==> r.value in levels
    {
      CurrentLevel(levels, sessionData)
    }

    function GetNextLevel(): (r: Result<Level>)
      reads this
      ensures r.Failure? <==> GetCurrentLevel().Failure?
      ensures r.Success? ==> r.value in levels
    {
      NextLevel(levels, sessionData)
    }
  }
}
