/**
 * PowerUp: a pickup placed at a random point within a radius of its map position. After each
 * pickup it is away for a random cool-down; when it is back, a player within distance 2 picks
 * it up. The random draws and the terrain height are inputs; the cool-down draw lies in [1, 3].
 */
module PowerUp {
  import opened Math3D
  import opened Wrappers
  import Player

  datatype PowerType = Health | Armor | WeaponLaser

  /** The type names the constructor recognises. */
  function PowerTypeOf(name: string): (t: Option<PowerType>)
    ensures t == Some(Health) <==> name == "health"
    ensures t == Some(Armor) <==> name == "armor"
    ensures t == Some(WeaponLaser) <==> name == "weapon_laser"
  {
    if name == "health" then Some(Health)
    else if name == "armor" then Some(Armor)
    else if name == "weapon_laser" then Some(WeaponLaser)
    else None
  }

  /** qMin(value + bonus, 100). */
  function Boosted(value: int, bonus: int): (r: int)
    ensures r <= 100
    ensures value + bonus <= 100 ==> r == value + bonus
    ensures value + bonus > 100 ==> r == 100
  {
    if value + bonus < 100 then value + bonus else 100
  }

  /** A health pickup never lowers life below what it was, as long as life was at most 100. */
  lemma HealthPickupHeals(life: int)
    requires life <= 100
    ensures life <= Boosted(life, 25) <= 100
    ensures Boosted(Boosted(life, 25), 25) == Boosted(life, 50)
  {
  }

  /** The pickup test `distance <= 2` is the same as a squared distance of at most 4. */
  lemma WithinReach(sqrt: real -> real, d: Vec3)
    requires IsSqrt(sqrt)
    ensures Length(sqrt, d) <= 2.0 <==> LengthSq(d) <= 4.0
  {
    var r := Length(sqrt, d);
    if r > 2.0 {
      SquareStrictlyMonotone(r, 2.0);
    } else {
      assert r * r <= 2.0 * r by {
        NonNegativeProduct(r, 2.0 - r);
      }
    }
  }

  /** The cool-down while away: it counts down and, once below 0, the power-up is back at 0. */
  function CooledDown(coolDown: real, delta: real): (r: (bool, real))
    ensures r.1 >= 0.0 || r.0
    ensures !r.0 <==> coolDown - delta < 0.0
    ensures r.0 ==> r.1 == coolDown - delta
    ensures !r.0 ==> r.1 == 0.0
  {
    if coolDown - delta < 0.0 then (false, 0.0) else (true, coolDown - delta)
  }

  class PowerUp {
    const mapX: int
    const mapY: int
    const mapRadius: int
    var powerType: PowerType
    var position: Vec3
    var rotationAngle: real
    var respawnCoolDown: real
    var respawning: bool

    /** respawn: a random point within the radius, 1.5 above the terrain, away for the drawn cool-down. */
    method Respawn(random: Vec2, coolDown: real, groundHeight: Vec3 -> real)
      requires 1.0 <= coolDown <= 3.0
      modifies this`position, this`respawnCoolDown, this`respawning
      ensures respawning && respawnCoolDown == coolDown && 1.0 <= respawnCoolDown <= 3.0
      ensures var p := Vec3(mapX as real + random.x * mapRadius as real, 0.0, mapY as real + random.y * mapRadius as real);
        position == p.(y := groundHeight(p) + 1.5)
    {
      var p := Vec3(mapX as real + random.x * mapRadius as real, 0.0, mapY as real + random.y * mapRadius as real);
      position := p.(y := groundHeight(p) + 1.5);
      respawnCoolDown := coolDown;
      respawning := true;
    }

    /** A power-up of a known type starts away, as respawn leaves it. */
    constructor (name: string, mapX: int, mapY: int, mapRadius: int, random: Vec2, coolDown: real, groundHeight: Vec3 -> real)
      requires PowerTypeOf(name).Some? && 1.0 <= coolDown <= 3.0
      ensures powerType == PowerTypeOf(name).value && rotationAngle == 0.0
      ensures this.mapX == mapX && this.mapY == mapY && this.mapRadius == mapRadius
      ensures respawning && respawnCoolDown == coolDown
    {
      this.mapX, this.mapY, this.mapRadius := mapX, mapY, mapRadius;
      rotationAngle := 0.0;
      powerType := PowerTypeOf(name).value;
      new;
      Respawn(random, coolDown, groundHeight);
    }

    /**
     * updateSelf: while away, the cool-down runs; otherwise a player within reach picks the
     * power-up up (health +25, armor +40, both capped at 100; the laser pickup gives nothing)
     * and it respawns. Reports whether it was picked up.
     */
    method UpdateSelf(delta: real, sqrt: real -> real, player: Player.Player, playerPosition: Vec3,
                      random: Vec2, coolDown: real, groundHeight: Vec3 -> real) returns (picked: bool)
      requires IsSqrt(sqrt) && 1.0 <= coolDown <= 3.0
      modifies this, player`life, player`armor
      ensures rotationAngle == old(rotationAngle) + delta * 100.0
      ensures picked <==> !old(respawning) && Length(sqrt, Sub(playerPosition, old(position))) <= 2.0
      ensures old(respawning) ==> (respawning, respawnCoolDown) == CooledDown(old(respawnCoolDown), delta)
      ensures picked ==> respawning && respawnCoolDown == coolDown
      ensures player.life == (if picked && powerType == Health then Boosted(old(player.life), 25) else old(player.life))
      ensures player.armor == (if picked && powerType == Armor then Boosted(old(player.armor), 40) else old(player.armor))
      ensures !old(respawning) && !picked ==> respawning == old(respawning) && position == old(position)
      ensures powerType == old(powerType)
    {
      rotationAngle := rotationAngle + delta * 100.0;
      var dist := Length(sqrt, Sub(playerPosition, position));
      picked := false;
      if respawning {
        respawnCoolDown := respawnCoolDown - delta;
        if respawnCoolDown < 0.0 {
          respawnCoolDown := 0.0;
          respawning := false;
        }
      } else if dist <= 2.0 {
        picked := true;
        match powerType {
          case Health => player.SetLife(Boosted(player.life, 25));
          case Armor => player.SetArmor(Boosted(player.armor, 40));
          case WeaponLaser =>
        }
        Respawn(random, coolDown, groundHeight);
      }
    }
  }
}
