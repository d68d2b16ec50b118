/**
 * src/core/bootstrapperBase.ts: builds the game's context, registers its
 * scenes and levels, checks the timer limit and copies the session in.
 */
module Bootstrappers {
  import opened Wrappers
  import opened Levels
  import opened Contexts
  import Js

  const TimerUndefinedError: string := "The timer limit is undefined, specify the timer limit in the configuration"
  const TimerTooLowError: string := "The value of the timer limit should be higher than 10 seconds"

  /** `validateConfig`: a falsy limit and a limit below 10 are both rejected, in that order. */
  function ValidateConfig(config: GameConfig): (r: Outcome)
    ensures r.Pass? <==> config.timerLimit.Some? && config.timerLimit.value >= 10
    ensures Js.FalsyNumber(config.timerLimit) ==> r == Fail(TimerUndefinedError)
    ensures !Js.FalsyNumber(config.timerLimit) && config.timerLimit.value < 10 ==> r == Fail(TimerTooLowError)
  {
    if Js.FalsyNumber(config.timerLimit) then Fail(TimerUndefinedError)
    else if config.timerLimit.value < 10 then Fail(TimerTooLowError)
    else Pass
  }

  /** The value `addLevel` gives the next level: 1 for the first, else the last value plus one. */
  function NextLevelValue(levels: seq<Level>): int {
    if |levels| < 1 then 1 else levels[|levels| - 1].value + 1
  }

  /** The levels after `addLevel` was called on each of `given` in turn. */
  function Renumbered(levels: seq<Level>, given: seq<Level>): seq<Level> {
    levels + seq(|given|, i requires 0 <= i < |given| => given[i].(value := NextLevelValue(levels) + i))
  }

  /** Registration alone numbers the levels 1..n in order and keeps everything else of each. */
  lemma RegistrationNumbers(given: seq<Level>)
    ensures |Renumbered([], given)| == |given|
    ensures ConsecutiveFrom(Renumbered([], given), 1)
    ensures forall i :: 0 <= i < |given| ==> Renumbered([], given)[i] == given[i].(value := i + 1)
  {
  }

  /** One more `addLevel` extends 1..n to 1..n+1 and leaves the earlier levels alone. */
  lemma AddLevelKeepsNumbering(levels: seq<Level>, level: Level)
    requires ConsecutiveFrom(levels, 1)
    ensures var after := levels + [level.(value := NextLevelValue(levels))];
      ConsecutiveFrom(after, 1) && after[..|levels|] == levels && after[|levels|].value == |levels| + 1
  {
  }

  lemma RenumberedStep(levels: seq<Level>, given: seq<Level>, i: nat)
    requires i < |given|
    ensures Renumbered(levels, given[..i + 1])
         == Renumbered(levels, given[..i]) + [given[i].(value := NextLevelValue(Renumbered(levels, given[..i])))]
  {
    var before := Renumbered(levels, given[..i]);
    assert i > 0 ==> before[|before| - 1] == given[i - 1].(value := NextLevelValue(levels) + i - 1);
    assert NextLevelValue(before) == NextLevelValue(levels) + i;
  }

  /** `addScene`: the key is set only when it is not registered yet. */
  function WithScene(scenes: map<string, SceneClass>, key: string, scene: SceneClass): map<string, SceneClass> {
    if key in scenes then scenes else scenes[key := scene]
  }

  /** The scenes after `addScene` was called on each pair in turn. */
  function WithScenes(scenes: map<string, SceneClass>, pairs: seq<(string, SceneClass)>): map<string, SceneClass>
    decreases |pairs|
  {
    if |pairs| == 0 then scenes else WithScenes(WithScene(scenes, pairs[0].0, pairs[0].1), pairs[1..])
  }

  /** A key that is registered keeps its scene whatever is added later: the first registration wins. */
  lemma {:induction false} RegisteredSceneKept(scenes: map<string, SceneClass>, pairs: seq<(string, SceneClass)>, key: string)
    requires key in scenes
    ensures key in WithScenes(scenes, pairs) && WithScenes(scenes, pairs)[key] == scenes[key]
    decreases |pairs|
  {
    if |pairs| > 0 {
      RegisteredSceneKept(WithScene(scenes, pairs[0].0, pairs[0].1), pairs[1..], key);
    }
  }

  /** A new key gets the scene of its first pair in the list. */
  lemma {:induction false} FirstSceneWins(scenes: map<string, SceneClass>, pairs: seq<(string, SceneClass)>, i: nat)
    requires i < |pairs| && pairs[i].0 !in scenes
    requires forall k :: 0 <= k < i ==> pairs[k].0 != pairs[i].0
    ensures pairs[i].0 in WithScenes(scenes, pairs) && WithScenes(scenes, pairs)[pairs[i].0] == pairs[i].1
    decreases |pairs|
  {
    var next := WithScene(scenes, pairs[0].0, pairs[0].1);
    if i == 0 {
      RegisteredSceneKept(next, pairs[1..], pairs[0].0);
    } else {
      FirstSceneWins(next, pairs[1..], i - 1);
    }
  }

  /** `Number.parseInt(n.toString())` gives back the integer it started from. */
  function Reparsed(n: int): (r: int)
    ensures r == n
  {
    Js.ParseIntToString(n);
    Js.ParseInt(Js.IntToString(n))
  }

  class Bootstrapper {
    const context: Context
    const key: string

    /** The constructor up to `validateConfig`: the context exists and holds the bootstrapper scene. */
    constructor (config: GameConfig, sceneType: SceneClass)
      ensures key == config.gameId + "_bootstrapper"
      ensures fresh(context)
      ensures context.config == config && context.bootstrapper == key
      ensures context.assetsPath == "assets/" + config.gameId
      ensures context.levels == [] && context.scenes == map[key := sceneType]
      ensures context.sessionData == None && context.callbackUrl == None
    {
      key := config.gameId + "_bootstrapper";
      var c := new Context(config, config.gameId + "_bootstrapper");
      context := c;
      new;
      AddScene(key, sceneType);
    }

    /** `addLevel`: writes the next value into the level and appends it; nothing else changes. */
    method AddLevel(level: Level)
      modifies context
      ensures context.levels == old(context.levels) + [level.(value := NextLevelValue(old(context.levels)))]
      ensures context.scenes == old(context.scenes)
      ensures context.sessionData == old(context.sessionData) && context.callbackUrl == old(context.callbackUrl)
    {
      var levelValue := if |context.levels| < 1 then 1 else context.levels[|context.levels| - 1].value + 1;
      context.levels := context.levels + [level.(value := levelValue)];
    }

    method AddScene(key: string, scene: SceneClass)
      modifies context
      ensures context.scenes == WithScene(old(context.scenes), key, scene)
      ensures context.levels == old(context.levels)
      ensures context.sessionData == old(context.sessionData) && context.callbackUrl == old(context.callbackUrl)
    {
      if key !in context.scenes {
        context.scenes := context.scenes[key := scene];
      }
    }

    /** A game's `registerScenes`: `addScene` on each of its pairs. */
    method RegisterScenes(pairs: seq<(string, SceneClass)>)
      modifies context
      ensures context.scenes == WithScenes(old(context.scenes), pairs)
      ensures context.levels == old(context.levels)
      ensures context.sessionData == old(context.sessionData) && context.callbackUrl == old(context.callbackUrl)
    {
      var i := 0;
      while i < |pairs|
        invariant 0 <= i <= |pairs|
        invariant WithScenes(context.scenes, pairs[i..]) == WithScenes(old(context.scenes), pairs)
        invariant context.levels == old(context.levels)
        invariant context.sessionData == old(context.sessionData) && context.callbackUrl == old(context.callbackUrl)
      {
        assert pairs[i..][1..] == pairs[i + 1..];
        AddScene(pairs[i].0, pairs[i].1);
        i := i + 1;
      }
    }

    /** A game's `registerLevels` (src/games/memo/bootstrapper.ts): `addLevel` on each loaded level. */
    method RegisterLevels(given: seq<Level>)
      modifies context
      ensures context.levels == Renumbered(old(context.levels), given)
      ensures context.scenes == old(context.scenes)
      ensures context.sessionData == old(context.sessionData) && context.callbackUrl == old(context.callbackUrl)
    {
      var i := 0;
      while i < |given|
        invariant 0 <= i <= |given|
        invariant context.levels == Renumbered(old(context.levels), given[..i])
        invariant context.scenes == old(context.scenes)
        invariant context.sessionData == old(context.sessionData) && context.callbackUrl == old(context.callbackUrl)
      {
        RenumberedStep(old(context.levels), given, i);
        AddLevel(given[i]);
        i := i + 1;
      }
      assert given[..i] == given;
    }

    /**
     * `init`: registers the levels, stores the callback URL and the session,
     * and re-parses its numeric fields. A missing session, or a session
     * without a timestamp, throws a TypeError at the `toString` call.
     */
    method Init(levels: seq<Level>, callbackUrl: Option<string>, session: Option<SessionData>) returns (r: Outcome)
      modifies context
      ensures context.levels == Renumbered(old(context.levels), levels)
      ensures context.scenes == old(context.scenes)
      ensures context.callbackUrl == callbackUrl && context.sessionData == session
      ensures r.Pass? <==> session.Some? && session.value.timestamp.Some?
    {
      RegisterLevels(levels);
      context.callbackUrl := callbackUrl;
      context.sessionData := session;
      if session.None? {
        return Fail("TypeError: sessionData is undefined");
      }
      var s := session.value;
      s := s.(level := Reparsed(s.level));
      s := s.(rank := Reparsed(s.rank));
      s := s.(highscore := Reparsed(s.highscore));
      context.sessionData := Some(s);
      if s.timestamp.None? {
        return Fail("TypeError: timestamp is undefined");
      }
      s := s.(timestamp := Some(Reparsed(s.timestamp.value)));
      context.sessionData := Some(s);
      r := Pass;
    }
  }

  /**
   * `new Bootstrapper(...)`: the bootstrapper scene is registered, then the
   * config is checked (a throw ends construction), then the game's scenes
   * are registered.
   */
  method Create(config: GameConfig, sceneType: SceneClass, scenes: seq<(string, SceneClass)>)
    returns (r: Result<Bootstrapper>)
    ensures r.Success? <==> ValidateConfig(config).Pass?
    ensures r.Failure? ==> r.error == ValidateConfig(config).error
    ensures r.Success? ==>
      var b := r.value;
      && fresh(b) && fresh(b.context)
      && b.key == config.gameId + "_bootstrapper"
      && b.context.config == config && b.context.bootstrapper == b.key
      && b.context.levels == []
      && b.context.scenes == WithScenes(map[b.key := sceneType], scenes)
  {
    var b := new Bootstrapper(config, sceneType);
    var check := ValidateConfig(config);
    if check.Fail? {
      return Failure(check.error);
    }
    b.RegisterScenes(scenes);
    r := Success(b);
  }
}
