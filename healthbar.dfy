/**
 * src/core/objects/healthbar.ts: the player's lives. The heart icons and
 * their fade-out tween are not modelled; the counter and the "healthOver"
 * event are.
 */
module Healthbars {
  import opened Wrappers
  import Js

  const DefaultHealthAmount: int := 3
  const DefaultTexture: string := "heart"

  /** `HealthbarConfig` without its position. */
  class HealthbarConfig {
    var healthAmount: Option<int>
    var texture: Option<string>

    constructor (healthAmount: Option<int>, texture: Option<string>)
      ensures this.healthAmount == healthAmount && this.texture == texture
    {
      this.healthAmount := healthAmount;
      this.texture := texture;
    }
  }

  /** `getValidConfig`: a falsy amount becomes 3 and a falsy texture "heart". */
  method GetValidConfig(config: HealthbarConfig)
    modifies config
    ensures config.healthAmount == Some(Js.NumberOr(old(config.healthAmount), DefaultHealthAmount))
    ensures config.texture == Some(Js.StringOr(old(config.texture), DefaultTexture))
  {
    if Js.FalsyString(config.texture) {
      config.texture := Some(DefaultTexture);
    }
    if Js.FalsyNumber(config.healthAmount) {
      config.healthAmount := Some(DefaultHealthAmount);
    }
  }

  /**
   * One `killHealth` on health h: the new health, the returned value
   * (`None` for `undefined`) and whether "healthOver" was emitted.
   */
  datatype Kill = Kill(health: int, returned: Option<int>, healthOver: bool)

  function KillStep(h: int): (k: Kill)
    ensures h <= 0 ==> k == Kill(h, None, false)
    ensures h > 0 ==> k.health == h - 1 && k.returned == Some(h - 1)
    ensures k.healthOver <==> h > 0 && k.health == 0
    ensures k.health >= 0 || k.health == h
  {
    if h <= 0 then Kill(h, None, false) else Kill(h - 1, Some(h - 1), h - 1 == 0)
  }

  /** The health left after n kills in a row. */
  function HealthAfter(h: int, n: nat): int {
    if n == 0 then h else HealthAfter(KillStep(h).health, n - 1)
  }

  /** The number of "healthOver" events during n kills in a row. */
  function HealthOverCount(h: int, n: nat): nat {
    if n == 0 then 0 else (if KillStep(h).healthOver then 1 else 0) + HealthOverCount(KillStep(h).health, n - 1)
  }

  /**
   * Between two resets "healthOver" fires at most once: exactly once when
   * the starting health h is positive and at least h kills happen, and the
   * health then stays at 0.
   */
  lemma {:induction false} HealthOverOnce(h: int, n: nat)
    ensures HealthOverCount(h, n) == if 0 < h <= n then 1 else 0
    ensures HealthAfter(h, n) == if h <= 0 then h else if n <= h then h - n else 0
    decreases n
  {
    if n > 0 {
      HealthOverOnce(KillStep(h).health, n - 1);
    }
  }

  class Healthbar {
    /** The configured amount, after defaults. */
    const healthAmount: int
    var health: int

    /** Health stays within 0..amount; a negative amount is never decremented. */
    ghost predicate Valid()
      reads this
    {
      if healthAmount < 0 then health == healthAmount else 0 <= health <= healthAmount
    }

    constructor (config: HealthbarConfig)
      modifies config
      ensures config.healthAmount == Some(Js.NumberOr(old(config.healthAmount), DefaultHealthAmount))
      ensures config.texture == Some(Js.StringOr(old(config.texture), DefaultTexture))
      ensures healthAmount == config.healthAmount.value && health == healthAmount
      ensures Valid()
    {
      GetValidConfig(config);
      healthAmount := config.healthAmount.value;
      health := config.healthAmount.value;
    }

    /**
     * `killHealth`; `healthOver` tells whether the "healthOver" event was
     * emitted, which runs the `onHealthOver` callback when one is set.
     */
    method KillHealth() returns (r: Option<int>, healthOver: bool)
      requires Valid()
      modifies this
      ensures Valid()
      ensures Kill(health, r, healthOver) == KillStep(old(health))
    {
      if health <= 0 {
        return None, false;
      }
      health := health - 1;
      healthOver := health == 0;
      r := Some(health);
    }

    /** `reset`: back to the configured amount. */
    method Reset()
      modifies this
      ensures health == healthAmount
      ensures Valid()
    {
      health := healthAmount;
    }
  }
}
