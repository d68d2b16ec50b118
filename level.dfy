/**
 * src/core/level.ts: a level's scoring settings and the defaults that
 * `getValidConfig` writes into a missing or falsy setting.
 */
module Levels {
  import opened Wrappers
  import Js

  const DefaultAwardPoints: int := 100
  const DefaultChargePoints: int := 5
  const DefaultMinPoints: int := 20
  const DefaultNextLevelTreshold: int := 100

  /** The game-specific payload of a level (`cards`, `rows`, `wordLength`, ...). */
  type LevelData = map<string, int>

  /** A level as the games read it. */
  datatype Level = Level(
    value: int,
    awardPoints: int,
    chargePoints: int,
    minPoints: int,
    nextLevelTreshold: int,
    data: Option<LevelData>)

  /** The fields of a `LevelConfig` object; `None` is `undefined`. */
  datatype Settings = Settings(
    awardPoints: Option<int>,
    chargePoints: Option<int>,
    minPoints: Option<int>,
    nextLevelTreshold: Option<int>,
    data: Option<LevelData>)

  predicate Truthy(x: Option<int>) {
    !Js.FalsyNumber(x)
  }

  /** Every numeric setting holds a truthy number. */
  predicate Complete(s: Settings) {
    Truthy(s.awardPoints) && Truthy(s.chargePoints) && Truthy(s.minPoints) && Truthy(s.nextLevelTreshold)
  }

  function Filled(x: Option<int>, default: int): Option<int> {
    Some(Js.NumberOr(x, default))
  }

  /**
   * What `getValidConfig` leaves in the config: an undefined config becomes
   * the four defaults with no data; otherwise each falsy setting, on its
   * own, takes its default and every other field is kept.
   */
  function ValidSettings(config: Option<Settings>): (r: Settings)
    ensures Complete(r)
    ensures config.None? ==>
      r == Settings(Some(DefaultAwardPoints), Some(DefaultChargePoints), Some(DefaultMinPoints), Some(DefaultNextLevelTreshold), None)
    ensures config.Some? ==> r.data == config.value.data
    ensures config.Some? ==>
      && (Truthy(config.value.awardPoints) ==> r.awardPoints == config.value.awardPoints)
      && (Truthy(config.value.chargePoints) ==> r.chargePoints == config.value.chargePoints)
      && (Truthy(config.value.minPoints) ==> r.minPoints == config.value.minPoints)
      && (Truthy(config.value.nextLevelTreshold) ==> r.nextLevelTreshold == config.value.nextLevelTreshold)
    ensures config.Some? ==>
      && (!Truthy(config.value.awardPoints) ==> r.awardPoints == Some(DefaultAwardPoints))
      && (!Truthy(config.value.chargePoints) ==> r.chargePoints == Some(DefaultChargePoints))
      && (!Truthy(config.value.minPoints) ==> r.minPoints == Some(DefaultMinPoints))
      && (!Truthy(config.value.nextLevelTreshold) ==> r.nextLevelTreshold == Some(DefaultNextLevelTreshold))
  {
    match config
    case None =>
      Settings(Some(DefaultAwardPoints), Some(DefaultChargePoints), Some(DefaultMinPoints), Some(DefaultNextLevelTreshold), None)
    case Some(c) =>
      Settings(
        Filled(c.awardPoints, DefaultAwardPoints),
        Filled(c.chargePoints, DefaultChargePoints),
        Filled(c.minPoints, DefaultMinPoints),
        Filled(c.nextLevelTreshold, DefaultNextLevelTreshold),
        c.data)
  }

  /** Normalising an already normalised config changes nothing. */
  lemma ValidSettingsIdempotent(config: Option<Settings>)
    ensures ValidSettings(Some(ValidSettings(config))) == ValidSettings(config)
  {
  }

  /** A complete config is kept as it is. */
  lemma CompleteSettingsKept(s: Settings)
    requires Complete(s)
    ensures ValidSettings(Some(s)) == s
  {
  }

  /** A zero counts as missing: `chargePoints: 0` becomes 5, `nextLevelTreshold: 0` becomes 100. */
  lemma ZeroTakesDefault(s: Settings)
    requires s.chargePoints == Some(0) && s.nextLevelTreshold == Some(0)
    ensures ValidSettings(Some(s)).chargePoints == Some(DefaultChargePoints)
    ensures ValidSettings(Some(s)).nextLevelTreshold == Some(DefaultNextLevelTreshold)
  {
  }

  /** The level a `new Level(value, settings)` builds from normalised settings. */
  function LevelOf(value: int, s: Settings): (l: Level)
    requires Complete(s)
    ensures l.value == value && l.data == s.data
    ensures Some(l.awardPoints) == s.awardPoints && Some(l.chargePoints) == s.chargePoints
    ensures Some(l.minPoints) == s.minPoints && Some(l.nextLevelTreshold) == s.nextLevelTreshold
  {
    Level(value, s.awardPoints.value, s.chargePoints.value, s.minPoints.value, s.nextLevelTreshold.value, s.data)
  }

  /** A `LevelConfig` object, which `getValidConfig` fills in place. */
  class LevelConfig {
    var awardPoints: Option<int>
    var chargePoints: Option<int>
    var minPoints: Option<int>
    var nextLevelTreshold: Option<int>
    var data: Option<LevelData>

    constructor (s: Settings)
      ensures Current() == s
    {
      awardPoints, chargePoints, minPoints := s.awardPoints, s.chargePoints, s.minPoints;
      nextLevelTreshold, data := s.nextLevelTreshold, s.data;
    }

    function Current(): Settings
      reads this
    {
      Settings(awardPoints, chargePoints, minPoints, nextLevelTreshold, data)
    }
  }

  /** `getValidConfig`: fills the passed object field by field, or builds a new one. */
  method GetValidConfig(config: LevelConfig?) returns (c: LevelConfig)
    modifies config
    ensures config == null ==> fresh(c)
    ensures config != null ==> c == config
    ensures c.Current() == ValidSettings(if config == null then None else Some(old(config.Current())))
  {
    if config == null {
      c := new LevelConfig(Settings(Some(DefaultAwardPoints), Some(DefaultChargePoints), Some(DefaultMinPoints), Some(DefaultNextLevelTreshold), None));
      return;
    }
    c := config;
    if Js.FalsyNumber(c.awardPoints) {
      c.awardPoints := Some(DefaultAwardPoints);
    }
    if Js.FalsyNumber(c.chargePoints) {
      c.chargePoints := Some(DefaultChargePoints);
    }
    if Js.FalsyNumber(c.minPoints) {
      c.minPoints := Some(DefaultMinPoints);
    }
    if Js.FalsyNumber(c.nextLevelTreshold) {
      c.nextLevelTreshold := Some(DefaultNextLevelTreshold);
    }
  }

  /** The `Level` constructor: normalises the config (in place when one is passed) and copies it. */
  method NewLevel(value: int, config: LevelConfig?) returns (l: Level)
    modifies config
    ensures config != null ==> config.Current() == ValidSettings(Some(old(config.Current())))
    ensures l == LevelOf(value, ValidSettings(if config == null then None else Some(old(config.Current()))))
  {
    var c := GetValidConfig(config);
    l := Level(value, c.awardPoints.value, c.chargePoints.value, c.minPoints.value, c.nextLevelTreshold.value, c.data);
  }
}
