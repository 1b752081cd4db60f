/**
 * Dummy: a target creature that spawns at a random point, walks towards the teapot while
 * alive, and falls under gravity onto the terrain. The random spawn point, the walking
 * direction (the result of the look-at rotation) and the terrain height are inputs.
 */
module Dummy {
  import opened Math3D
  import opened Wrappers
  import opened Creature

  datatype DummyState = DummyState(state: State, life: int, position: Vec3, velocityY: real, heightAboveGround: real)

  /** The switch on the state: the new state, life, position and height above ground. */
  function StateStep(s: DummyState, delta: real, spawn: Vec3, direction: Vec3): (r: DummyState)
    ensures r.velocityY == s.velocityY
    ensures s.state == Spawning ==>
      (r.state == Alive && r.life == 100 && r.heightAboveGround == 6.0 && r.position == Add(spawn, Vec3(0.0, 10.0, 0.0)))
    ensures s.state == Alive ==>
      (r.state == (if s.life <= 0 then Dying else Alive) && r.life == s.life && r.heightAboveGround == s.heightAboveGround)
    ensures s.state == Dying ==> r.state == Dead && r.heightAboveGround == 3.0 && r == s.(state := Dead, heightAboveGround := 3.0)
    ensures s.state == Dead ==> r == s
  {
    match s.state
    case Spawning => s.(position := Add(spawn, Vec3(0.0, 10.0, 0.0)), state := Alive, life := 100, heightAboveGround := 6.0)
    case Alive =>
      var moved := s.(position := Add(s.position, Scale(direction, delta * 10.0)));
      if s.life <= 0 then moved.(state := Dying) else moved
    case Dying => s.(state := Dead, heightAboveGround := 3.0)
    case Dead => s
  }

  /** Gravity: the vertical velocity gains -3 per second, and the position follows it. */
  function Gravity(s: DummyState, delta: real): (r: DummyState)
    ensures r == s.(velocityY := r.velocityY, position := s.position.(y := r.position.y))
  {
    var v := s.velocityY + -3.0 * delta;
    s.(velocityY := v, position := s.position.(y := s.position.y + v * delta))
  }

  /**
   * The ground clamp: below the terrain height plus the height above ground the dummy is lifted
   * onto it and stops falling; anywhere else, or where the height is unknown, nothing changes.
   */
  function Clamp(s: DummyState, ground: Option<real>): (r: DummyState)
    ensures r.state == s.state && r.life == s.life && r.heightAboveGround == s.heightAboveGround
    ensures r.position.x == s.position.x && r.position.z == s.position.z
    ensures ground.None? ==> r == s
    ensures ground.Some? ==> r.position.y >= ground.value + s.heightAboveGround
    ensures ground.Some? && s.position.y >= ground.value + s.heightAboveGround ==> r == s
    ensures ground.Some? && s.position.y < ground.value + s.heightAboveGround ==>
      (r.position.y == ground.value + s.heightAboveGround && r.velocityY == (if s.velocityY < 0.0 then 0.0 else s.velocityY))
  {
    if ground.Some? && ground.value + s.heightAboveGround > s.position.y then
      s.(position := s.position.(y := ground.value + s.heightAboveGround), velocityY := if s.velocityY < 0.0 then 0.0 else s.velocityY)
    else s
  }

  function Update(s: DummyState, delta: real, spawn: Vec3, direction: Vec3, groundHeight: Vec3 -> Option<real>): DummyState {
    var fallen := Gravity(StateStep(s, delta, spawn, direction), delta);
    Clamp(fallen, groundHeight(fallen.position))
  }

  /**
   * The life cycle over one update: a spawning dummy comes alive with full life, an alive one
   * starts dying once its life is gone, a dying one dies, a dead one stays dead.
   */
  lemma UpdateLifeCycle(s: DummyState, delta: real, spawn: Vec3, direction: Vec3, groundHeight: Vec3 -> Option<real>)
    ensures var r := Update(s, delta, spawn, direction, groundHeight);
      && (s.state == Spawning ==> r.state == Alive && r.life == 100)
      && (s.state == Alive ==> (r.state == Dying <==> s.life <= 0) && (r.state == Alive <==> s.life > 0))
      && (s.state == Dying || s.state == Dead ==> r.state == Dead)
      && (s.state != Spawning ==> r.life == s.life)
  {
  }

  /** Wherever the terrain height is known after an update, the dummy stands at least its height above it. */
  lemma UpdateStaysAboveGround(s: DummyState, delta: real, spawn: Vec3, direction: Vec3, groundHeight: Vec3 -> Option<real>)
    ensures var fallen := Gravity(StateStep(s, delta, spawn, direction), delta);
      var r := Update(s, delta, spawn, direction, groundHeight);
      groundHeight(fallen.position).Some? ==> r.position.y >= groundHeight(fallen.position).value + r.heightAboveGround
  {
  }

  /** receiveDamage: the spray size is the damage, halved for a dead dummy. */
  function SpraySize(state: State, damage: int): (size: real)
    ensures state != Dead ==> size == damage as real
    ensures state == Dead ==> size * 2.0 == damage as real
  {
    if state != Dead then damage as real else damage as real / 2.0
  }

  class Dummy {
    var state: State
    var life: int
    var position: Vec3
    var velocityY: real
    var heightAboveGround: real

    function Current(): DummyState
      reads this
    {
      DummyState(state, life, position, velocityY, heightAboveGround)
    }

    /** The creature's initial state and life come from ACreature, which is not part of this model. */
    constructor (state: State, life: int, position: Vec3)
      ensures Current() == DummyState(state, life, position, 0.0, 6.0)
    {
      this.state := state;
      this.life := life;
      this.position := position;
      velocityY := 0.0;
      heightAboveGround := 6.0;
    }

    method UpdateSelf(delta: real, spawn: Vec3, direction: Vec3, groundHeight: Vec3 -> Option<real>)
      modifies this
      ensures Current() == Update(old(Current()), delta, spawn, direction, groundHeight)
    {
      match state {
        case Spawning =>
          position := Add(spawn, Vec3(0.0, 10.0, 0.0));
          state := Alive;
          life := 100;
          heightAboveGround := 6.0;
        case Alive =>
          position := Add(position, Scale(direction, delta * 10.0));
          if life <= 0 {
            state := Dying;
          }
        case Dying =>
          state := Dead;
          heightAboveGround := 3.0;
        case Dead =>
      }
      assert Current() == StateStep(old(Current()), delta, spawn, direction);
      velocityY := velocityY + -3.0 * delta;
      position := position.(y := position.y + velocityY * delta);
      assert Current() == Gravity(StateStep(old(Current()), delta, spawn, direction), delta);
      var h := groundHeight(position);
      if h.Some? && h.value + heightAboveGround > position.y {
        position := position.(y := h.value + heightAboveGround);
        if velocityY < 0.0 {
          velocityY := 0.0;
        }
      }
    }

    /** receiveDamage: the base damage, then a spray whose size this returns. */
    method ReceiveDamage(damage: int) returns (spray: real)
      modifies this
      ensures life == Damaged(old(life), damage) && state == old(state)
      ensures position == old(position) && velocityY == old(velocityY) && heightAboveGround == old(heightAboveGround)
      ensures spray == SpraySize(state, damage)
    {
      life := life - damage;
      if life < 0 {
        life := 0;
      }
      if state != Dead {
        spray := damage as real;
      } else {
        spray := damage as real / 2.0;
      }
    }
  }
}
