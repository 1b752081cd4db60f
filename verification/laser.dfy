/**
 * Laser: the player's weapon. While drawn and with the trigger held it fires whenever it has
 * cooled down and has a charge in its clip; firing heats it up, spends ammunition and casts a
 * trail through the world. Cooling refills the clip. Aiming (the slerp towards the target), the
 * impact particles and the sounds are not part of this model; the world's answer to the trail's
 * ray query is an input.
 */
module Laser {
  import opened Math3D

  const Range: real := 250.0
  const TrailVisibilityDuration: real := 1.0

  datatype LaserState = LaserState(
    ammo: int, clipAmmo: int, clipSize: int,
    drawn: bool, fired: bool,
    heat: real, trailAlpha: real,
    trailStart: Vec3, trailDirection: Vec3, trailLength: real, trailEnd: Vec3)

  /** The weapon as constructed: 20 shots, one in the clip, clip size 1, holstered, cold. */
  const Initial := LaserState(20, 1, 1, false, false, 0.0, 0.0, Zero3, Zero3, 0.0, Zero3)

  /** The firing condition. */
  predicate Fires(s: LaserState) {
    s.drawn && s.fired && s.heat <= 0.0 && s.clipAmmo > 0
  }

  /**
   * A shot from `start` along `direction`: the trail's length is what the world's line query
   * left of the range.
   */
  function Shoot(s: LaserState, start: Vec3, direction: Vec3, hitLength: real): (r: LaserState)
    ensures r.heat == 3.0 && r.trailAlpha == 1.0
    ensures r.clipAmmo == s.clipAmmo - 1 && r.ammo == s.ammo - 1
    ensures r.trailLength == hitLength && r.trailEnd == Add(start, Scale(direction, hitLength))
  {
    s.(heat := 3.0, trailAlpha := 1.0, trailStart := start, trailDirection := direction,
       trailLength := hitLength, trailEnd := Add(start, Scale(direction, hitLength)),
       clipAmmo := s.clipAmmo - 1, ammo := s.ammo - 1)
  }

  /** Cooling and the trail's fading: heat and alpha drop by delta, and stop at 0; a cold laser gets a full clip. */
  function Cool(s: LaserState, delta: real): (r: LaserState)
    ensures r.heat >= 0.0 && r.trailAlpha >= 0.0
    ensures s.heat > delta ==> r.heat == s.heat - delta && r.clipAmmo == s.clipAmmo
    ensures s.heat <= delta ==> r.heat == 0.0 && r.clipAmmo == s.clipSize
    ensures s.trailAlpha > delta ==> r.trailAlpha == s.trailAlpha - delta
    ensures s.trailAlpha <= delta ==> r.trailAlpha == 0.0
    ensures r.ammo == s.ammo && r.clipSize == s.clipSize && r.drawn == s.drawn && r.fired == s.fired
  {
    var heated := if s.heat > delta then s.(heat := s.heat - delta) else s.(heat := 0.0, clipAmmo := s.clipSize);
    heated.(trailAlpha := if s.trailAlpha > delta then s.trailAlpha - delta / TrailVisibilityDuration else 0.0)
  }

  function Update(s: LaserState, delta: real, start: Vec3, direction: Vec3, hitLength: real): LaserState {
    Cool(if Fires(s) then Shoot(s, start, direction, hitLength) else s, delta)
  }

  /**
   * One update fires at most one shot, and only when drawn, triggered, cold and loaded; a shot
   * spends one round of ammunition, which is not checked and can go below 0.
   */
  lemma UpdateSpendsAtMostOneShot(s: LaserState, delta: real, start: Vec3, direction: Vec3, hitLength: real)
    ensures var r := Update(s, delta, start, direction, hitLength);
      && r.ammo == (if Fires(s) then s.ammo - 1 else s.ammo)
      && (Fires(s) && delta < 3.0 ==> r.heat == 3.0 - delta && r.clipAmmo == s.clipAmmo - 1)
      && r.heat >= 0.0 && r.trailAlpha >= 0.0
  {
  }

  /** With a frame shorter than the heat-up time, a shot is never followed by another in the next frame. */
  lemma NoShotWhileHot(s: LaserState, delta: real, start: Vec3, direction: Vec3, hitLength: real)
    requires Fires(s) && 0.0 <= delta < 3.0
    ensures !Fires(Update(s, delta, start, direction, hitLength))
  {
  }

  /** With zero ammunition and trigger held, repeated firing drives the ammunition count negative. */
  lemma AmmoCanGoNegative(start: Vec3, direction: Vec3)
    ensures var s := Initial.(ammo := 0, drawn := true, fired := true);
      Update(s, 0.5, start, direction, Range).ammo == -1
  {
  }

  class Laser {
    var ammo: int
    var clipAmmo: int
    var clipSize: int
    var drawn: bool
    var fired: bool
    var heat: real
    var trailAlpha: real
    var trailStart: Vec3
    var trailDirection: Vec3
    var trailLength: real
    var trailEnd: Vec3

    function Current(): LaserState
      reads this
    {
      LaserState(ammo, clipAmmo, clipSize, drawn, fired, heat, trailAlpha, trailStart, trailDirection, trailLength, trailEnd)
    }

    constructor ()
      ensures Current() == Initial
    {
      ammo, clipAmmo, clipSize := 20, 1, 1;
      drawn, fired := false, false;
      heat, trailAlpha := 0.0, 0.0;
      trailStart, trailDirection, trailLength, trailEnd := Zero3, Zero3, 0.0, Zero3;
    }

    method TriggerPressed()
      modifies this`fired
      ensures fired
    {
      fired := true;
    }

    method TriggerReleased()
      modifies this`fired
      ensures !fired
    {
      fired := false;
    }

    method Pull()
      modifies this`drawn
      ensures drawn
    {
      drawn := true;
    }

    method Holster()
      modifies this`drawn
      ensures !drawn
    {
      drawn := false;
    }

    /**
     * updateSelf from the weapon's world position and direction; `hitLength` is the length the
     * world's line query leaves of the range. Reports whether a shot was fired.
     */
    method UpdateSelf(delta: real, start: Vec3, direction: Vec3, hitLength: real) returns (shot: bool)
      requires hitLength <= Range
      modifies this
      ensures shot == Fires(old(Current()))
      ensures Current() == Update(old(Current()), delta, start, direction, hitLength)
      ensures shot ==> trailLength == hitLength && trailEnd == Add(start, Scale(direction, hitLength))
      ensures !shot ==> trailLength == old(trailLength) && trailEnd == old(trailEnd)
    {
      ghost var s0 := Current();
      shot := false;
      if drawn && fired && heat <= 0.0 && clipAmmo > 0 {
        shot := true;
        heat := 3.0;
        trailAlpha := 1.0;
        trailStart := start;
        trailDirection := direction;
        trailLength := Range;
        // the world's intersectLine shortens the length to the nearest hit
        trailLength := hitLength;
        trailEnd := Add(trailStart, Scale(trailDirection, trailLength));
        clipAmmo := clipAmmo - 1;
        ammo := ammo - 1;
      }
      ghost var s1 := Current();
      assert s1 == if Fires(s0) then Shoot(s0, start, direction, hitLength) else s0;
      if heat > delta {
        heat := heat - delta;
      } else {
        heat := 0.0;
        clipAmmo := clipSize;
      }
      if trailAlpha > delta {
        trailAlpha := trailAlpha - delta / TrailVisibilityDuration;
      } else {
        trailAlpha := 0.0;
      }
      assert Current() == Cool(s1, delta);
    }
  }
}
