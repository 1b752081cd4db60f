/**
 * World: the root of the scene graph. It keeps the list of light sources, the time of day
 * (advanced every frame, faster or backwards while PageDown or PageUp is held), the level clock
 * (every 20 seconds a new level starts, the player is told and dead enemies respawn), and it
 * decides how splatter particles behave under water and below the ground.
 */
module World {
  import opened Math3D
  import opened Wrappers
  import Quality
  import Creature
  import Player
  import Sky
  import Splatter
  import Particles
  import opened Text
  import opened Sequences

  // ---------------------------------------------------------------- light sources

  // ---------------------------------------------------------------- level message

  /** "Level %1" with the level number, a minus sign in front of a negative one. */
  function LevelMessage(level: int): (m: string)
    ensures |m| >= 7 && m[..6] == "Level "
    ensures level >= 0 ==> IsDigits(m[6..]) && ValueOf(m[6..]) == level
    ensures level < 0 ==> m[6] == '-' && IsDigits(m[7..]) && ValueOf(m[7..]) == -level
  {
    var digits := if level >= 0 then Decimal(level) else "-" + Decimal(-level);
    var m := "Level " + digits;
    assert m[6..] == digits;
    if level >= 0 then
      DecimalRoundTrip(level);
      m
    else
      assert m[7..] == Decimal(-level);
      DecimalRoundTrip(-level);
      m
  }

  // ---------------------------------------------------------------- time of day and level clock

  /** How fast the time of day runs per second: 0.002, plus 0.2 while lapsing, minus 0.2 while reversing. */
  function Rate(lapse: bool, reverse: bool): (r: real)
    ensures lapse == reverse ==> r == 0.002
    ensures lapse && !reverse ==> r == 0.202
    ensures !lapse && reverse ==> r == -0.198
  {
    0.002 + (if lapse then 0.2 else 0.0) - (if reverse then 0.2 else 0.0)
  }

  /** The time of day after a frame: it advances at the rate and drops by 1 once above 1, never wrapping upward. */
  function AdvanceTime(timeOfDay: real, delta: real, lapse: bool, reverse: bool): real {
    var t := timeOfDay + Rate(lapse, reverse) * delta;
    if t > 1.0 then t - 1.0 else t
  }

  /** Moving forward by at most a whole day from within [0, 1] stays within [0, 1]. */
  lemma AdvanceStaysInDay(timeOfDay: real, delta: real, lapse: bool, reverse: bool)
    requires 0.0 <= timeOfDay <= 1.0
    requires 0.0 <= Rate(lapse, reverse) * delta <= 1.0
    ensures 0.0 <= AdvanceTime(timeOfDay, delta, lapse, reverse) <= 1.0
  {
  }

  /**
   * Running backwards past midnight is not wrapped: the world's time goes negative and keeps
   * going, and it is the sky that turns it into the fraction of a day.
   */
  lemma ReverseGoesNegative()
    ensures AdvanceTime(0.0, 1.0, false, true) == -0.198
    ensures AdvanceTime(-0.198, 1.0, false, true) == -0.396
    ensures Sky.WrapTime(AdvanceTime(0.0, 1.0, false, true)) == 0.802
  {
    assert Floor(-0.198) == -1;
  }

  /** The world's own drop by 1 does not change what the sky sees, except where a time of 2 becomes 1. */
  lemma SkySeesSameTime(t: real)
    requires t > 1.0 && t != 2.0
    ensures Sky.WrapTime(t - 1.0) == Sky.WrapTime(t)
  {
    assert Floor(t - 1.0) == Floor(t) - 1;
  }

  /** The level clock after a frame and whether a new level starts. */
  datatype LevelClock = LevelClock(level: int, levelTime: real)

  function Tick(c: LevelClock, delta: real, duration: real): (r: (LevelClock, bool))
    ensures r.1 <==> c.levelTime + delta >= duration
    ensures r.1 ==> r.0 == LevelClock(c.level + 1, 0.0)
    ensures !r.1 ==> r.0 == LevelClock(c.level, c.levelTime + delta)
  {
    var t := c.levelTime + delta;
    if t >= duration then (LevelClock(c.level + 1, 0.0), true) else (LevelClock(c.level, t), false)
  }

  /** The level only ever goes up, by at most one per frame, and the clock stays below the duration while the frame is shorter than it. */
  lemma TickProgress(c: LevelClock, delta: real, duration: real)
    requires 0.0 <= delta && 0.0 <= c.levelTime < duration
    ensures c.level <= Tick(c, delta, duration).0.level <= c.level + 1
    ensures 0.0 <= Tick(c, delta, duration).0.levelTime < duration
  {
  }

  // ---------------------------------------------------------------- splatter interaction

  /** What the interaction callback does to one particle, and whether it asks for a splat. */
  datatype Interaction = Interaction(particle: Particles.Particle, splats: bool)

  /**
   * SplatterInteractor::particleInteraction: a particle more than half its size below the water
   * surface is slowed by gravity/1.1; one more than half its size below the ground dies, and on
   * dry ground with the highest quality it leaves a splat.
   */
  function SplatterInteraction(p: Particles.Particle, waterHeight: real, heightAboveGround: real,
                               size: real, gravity: Vec3, delta: real, maximum: Quality.Quality): (r: Interaction)
    ensures r.particle.position == p.position && r.particle.rotation == p.rotation
    ensures r.particle.life == (if heightAboveGround < -size / 2.0 then 0.0 else p.life)
    ensures p.position.y - waterHeight < -size / 2.0 ==> Add(r.particle.velocity, Scale(Div(gravity, 1.1), delta)) == p.velocity
    ensures p.position.y - waterHeight >= -size / 2.0 ==> r.particle.velocity == p.velocity
    ensures r.splats <==> heightAboveGround < -size / 2.0 && p.position.y - waterHeight >= -size / 2.0 && maximum == Quality.High
  {
    var belowWater := p.position.y - waterHeight < -size / 2.0;
    var belowGround := heightAboveGround < -size / 2.0;
    var v := if belowWater then Sub(p.velocity, Scale(Div(gravity, 1.1), delta)) else p.velocity;
    var l := if belowGround then 0.0 else p.life;
    Interaction(Particles.Particle(v, p.position, l, p.rotation), belowGround && !belowWater && maximum == Quality.High)
  }

  /** A particle that asks for a splat is dead afterwards, and a dead one never revives. */
  lemma SplatOnlyWhenKilled(p: Particles.Particle, waterHeight: real, heightAboveGround: real,
                            size: real, gravity: Vec3, delta: real, maximum: Quality.Quality)
    ensures var r := SplatterInteraction(p, waterHeight, heightAboveGround, size, gravity, delta, maximum);
      (r.splats ==> !Particles.Live(r.particle)) && (!Particles.Live(p) ==> !Particles.Live(r.particle))
  {
  }

  /** The interaction callback as the particle system sees it, with the terrain height as a function of position. */
  function Interactor(waterHeight: real, heightAboveGround: Vec3 -> real, size: real, gravity: Vec3,
                      delta: real, maximum: Quality.Quality): Particles.Particle -> Particles.Particle
  {
    (p: Particles.Particle) => SplatterInteraction(p, waterHeight, heightAboveGround(p.position), size, gravity, delta, maximum).particle
  }

  /** Splats below the ground are drawn only at medium quality. */
  function SplatBelow(maximum: Quality.Quality): (b: bool)
    ensures b <==> maximum == Quality.Medium
  {
    maximum == Quality.Medium
  }

  // ---------------------------------------------------------------- the world

  datatype Key = PageDown | PageUp | OtherKey

  /** A dead enemy comes back as spawning; every other state stays. */
  function Respawned(s: Creature.State): (r: Creature.State)
    ensures r != Creature.Dead
    ensures s != Creature.Dead ==> r == s
  {
    if s == Creature.Dead then Creature.Spawning else s
  }

  class World {
    var level: int
    var levelTime: real
    var levelDuration: real
    var timeLapse: bool
    var timeReverse: bool
    var timeOfDay: real
    var lightSources: seq<object>
    var enemies: seq<Creature.Creature>
    const sky: Sky.Sky
    const player: Player.Player
    const splatter: Splatter.SplatterSystem

    ghost predicate Valid()
      reads this, sky, splatter, splatter.particles
    {
      sky.Valid() && splatter.Valid() && Distinct(lightSources)
    }

    /**
     * Level 1 at time 0 of a 20-second level, time of day 0, no time key held, no enemy
     * (addRandomEnemy adds none) and no light source until the sky registers itself.
     */
    constructor (sky: Sky.Sky, player: Player.Player, splatter: Splatter.SplatterSystem)
      requires sky.Valid() && splatter.Valid()
      ensures Valid() && this.sky == sky && this.player == player && this.splatter == splatter
      ensures level == 1 && levelTime == 0.0 && levelDuration == 20.0
      ensures !timeLapse && !timeReverse && timeOfDay == 0.0
      ensures lightSources == [] && enemies == []
    {
      this.sky, this.player, this.splatter := sky, player, splatter;
      level, levelTime, levelDuration := 1, 0.0, 20.0;
      timeLapse, timeReverse, timeOfDay := false, false, 0.0;
      lightSources, enemies := [], [];
    }

    /** addLightSource: appended unless already in the list, so the list never holds a source twice. */
    method AddLightSource(light: object)
      requires Valid()
      modifies this`lightSources
      ensures Valid()
      ensures light in old(lightSources) ==> lightSources == old(lightSources)
      ensures light !in old(lightSources) ==> lightSources == old(lightSources) + [light]
    {
      if light !in lightSources {
        lightSources := lightSources + [light];
      }
    }

    /** removeLightSource: the first occurrence goes, which in a list without repeats is the only one. */
    method RemoveLightSource(light: object)
      requires Valid()
      modifies this`lightSources
      ensures Valid() && light !in lightSources
      ensures lightSources == RemoveFirst(old(lightSources), light)
    {
      RemoveFirstFromDistinct(lightSources, light);
      lightSources := RemoveFirst(lightSources, light);
    }

    /** keyPressEvent: PageDown speeds time up, PageUp runs it backwards; other keys do nothing. */
    method KeyPress(key: Key)
      modifies this`timeLapse, this`timeReverse
      ensures timeLapse == (key == PageDown || old(timeLapse))
      ensures timeReverse == (key == PageUp || old(timeReverse))
    {
      match key {
        case PageDown => timeLapse := true;
        case PageUp => timeReverse := true;
        case OtherKey =>
      }
    }

    /** keyReleaseEvent: releasing PageDown or PageUp ends its effect. */
    method KeyRelease(key: Key)
      modifies this`timeLapse, this`timeReverse
      ensures timeLapse == (key != PageDown && old(timeLapse))
      ensures timeReverse == (key != PageUp && old(timeReverse))
    {
      match key {
        case PageDown => timeLapse := false;
        case PageUp => timeReverse := false;
        case OtherKey =>
      }
    }

    /** respawnEnemies: every dead enemy becomes spawning; no other state or life changes, even when an enemy is listed twice. */
    method RespawnEnemies()
      modifies set e | e in enemies
      ensures forall e :: e in enemies ==> e.state == Respawned(old(e.state)) && e.life == old(e.life)
    {
      var i := 0;
      while i < |enemies|
        invariant 0 <= i <= |enemies|
        invariant forall e :: e in enemies ==> e.life == old(e.life)
        invariant forall e :: e in enemies ==> e.state == if e in enemies[..i] then Respawned(old(e.state)) else old(e.state)
      {
        var e := enemies[i];
        if e.state == Creature.Dead {
          e.SetState(Creature.Spawning);
        }
        assert enemies[..i + 1] == enemies[..i] + [e];
        i := i + 1;
      }
      assert enemies[..i] == enemies;
    }

    /**
     * The clock part of updateSelf: the time of day and the level clock move on, and a new
     * level shows its number and respawns the dead enemies.
     */
    method AdvanceClocks(delta: real) returns (newLevel: bool)
      modifies this`timeOfDay, this`level, this`levelTime, player`text
      modifies set e | e in enemies
      ensures timeOfDay == AdvanceTime(old(timeOfDay), delta, timeLapse, timeReverse)
      ensures (LevelClock(level, levelTime), newLevel) == Tick(LevelClock(old(level), old(levelTime)), delta, levelDuration)
      ensures newLevel ==> player.text == Player.Shown(LevelMessage(level))
      ensures !newLevel ==> player.text == old(player.text)
      ensures forall e :: e in enemies ==> e.life == old(e.life) && e.state == if newLevel then Respawned(old(e.state)) else old(e.state)
    {
      timeOfDay := AdvanceTime(timeOfDay, delta, timeLapse, timeReverse);
      var next := Tick(LevelClock(level, levelTime), delta, levelDuration);
      level, levelTime, newLevel := next.0.level, next.0.levelTime, next.1;
      if newLevel {
        player.DrawMessage(LevelMessage(level));
        RespawnEnemies();
      }
    }

    /**
     * updateSelf: the clocks move on; the sky gets the time of day; splats below the ground
     * follow the quality; and the splatter system updates with the world's interaction callback.
     */
    method UpdateSelf(delta: real, maximum: Quality.Quality, dragPow: real, waterHeight: real, heightAboveGround: Vec3 -> real)
      returns (newLevel: bool)
      requires Valid()
      modifies this`timeOfDay, this`level, this`levelTime, sky`timeOfDay, player`text
      modifies set e | e in enemies
      modifies splatter`splatBelow, splatter.splatters, splatter.particles.particles
      ensures Valid()
      ensures timeOfDay == AdvanceTime(old(timeOfDay), delta, timeLapse, timeReverse)
      ensures (LevelClock(level, levelTime), newLevel) == Tick(LevelClock(old(level), old(levelTime)), delta, levelDuration)
      ensures newLevel ==> player.text == Player.Shown(LevelMessage(level))
      ensures !newLevel ==> player.text == old(player.text)
      ensures forall e :: e in enemies ==> e.life == old(e.life) && e.state == if newLevel then Respawned(old(e.state)) else old(e.state)
      ensures sky.timeOfDay == Sky.WrapTime(timeOfDay)
      ensures splatter.splatBelow == SplatBelow(maximum)
      ensures splatter.particles.particles[..] == Particles.Updated(old(splatter.particles.particles[..]), delta, dragPow,
        splatter.particles.gravity,
        Some(Interactor(waterHeight, heightAboveGround, splatter.particles.size, splatter.particles.gravity, delta, maximum)))
      ensures forall i :: 0 <= i < splatter.splatters.Length ==>
        splatter.splatters[i] == old(splatter.splatters[i]).(fade := old(splatter.splatters[i].fade) - splatter.fadeSpeed * delta)
    {
      newLevel := AdvanceClocks(delta);
      sky.SetTimeOfDay(timeOfDay);
      splatter.splatBelow := SplatBelow(maximum);
      var interact := Interactor(waterHeight, heightAboveGround, splatter.particles.size, splatter.particles.gravity, delta, maximum);
      splatter.Update(delta, dragPow, Some(interact));
    }
  }
}
