/**
 * Player: the creature the eye is attached to. Key flags, damage absorbed by armor first,
 * points with a kill-streak multiplier, the on-screen message, the pitch clamp and the water
 * immersion clamp. Walking, jumping and swimming physics are not part of this model.
 */
module Player {
  import opened Math3D
  import opened Creature

  datatype Key = KeyW | KeyA | KeyS | KeyD | KeyE | KeyR | KeySpace | KeyShift | KeyControl | KeyTab | OtherKey

  /** The movement and action flags. */
  datatype Keys = Keys(forward: bool, left: bool, backward: bool, right: bool, use: bool, up: bool, speed: bool, down: bool)

  const NoKeys := Keys(false, false, false, false, false, false, false, false)

  /** The flag a key drives, if any. */
  predicate IsFlagKey(key: Key) {
    key != KeyR && key != KeyTab && key != OtherKey
  }

  function SetFlag(k: Keys, key: Key, value: bool): (r: Keys)
    requires IsFlagKey(key)
    ensures Flag(r, key) == value
    ensures forall other: Key :: IsFlagKey(other) && other != key ==> Flag(r, other) == Flag(k, other)
  {
    match key
    case KeyW => k.(forward := value)
    case KeyA => k.(left := value)
    case KeyS => k.(backward := value)
    case KeyD => k.(right := value)
    case KeyE => k.(use := value)
    case KeySpace => k.(up := value)
    case KeyShift => k.(speed := value)
    case KeyControl => k.(down := value)
  }

  function Flag(k: Keys, key: Key): bool
    requires IsFlagKey(key)
  {
    match key
    case KeyW => k.forward
    case KeyA => k.left
    case KeyS => k.backward
    case KeyD => k.right
    case KeyE => k.use
    case KeySpace => k.up
    case KeyShift => k.speed
    case KeyControl => k.down
  }

  /** Releasing a key after pressing it leaves every flag as before, except that this key's flag is clear. */
  lemma PressThenRelease(k: Keys, key: Key)
    requires IsFlagKey(key)
    ensures SetFlag(SetFlag(k, key, true), key, false) == SetFlag(k, key, false)
  {
  }

  /** Player.receiveDamage over (life, armor, state): armor absorbs first, then life; nothing in god mode. */
  datatype Health = Health(life: int, armor: int, state: State)

  function AfterDamage(h: Health, godMode: bool, damage: int): (r: Health)
    ensures godMode ==> r == h
    ensures !godMode && h.armor >= damage ==> r == h.(armor := h.armor - damage)
    ensures !godMode && h.armor < damage ==>
      (r.armor == 0
       && r.life == (if h.life - (damage - h.armor) <= 0 then 0 else h.life - (damage - h.armor))
       && r.state == (if h.life - (damage - h.armor) <= 0 && h.state == Alive then Dying else h.state))
  {
    if godMode then h
    else if h.armor >= damage then h.(armor := h.armor - damage)
    else
      var admg := damage - h.armor;
      var life := h.life - admg;
      var armor := h.armor - (damage - admg);
      if life <= 0 then Health(0, armor, if h.state == Alive then Dying else h.state)
      else Health(life, armor, h.state)
  }

  /**
   * Outside god mode, damage that the player survives is paid in full from armor and life
   * together, and the player never ends up with negative life or armor from it.
   */
  lemma DamageIsAbsorbed(h: Health, damage: int)
    requires h.armor >= 0 && h.life >= 0 && damage >= 0
    ensures var r := AfterDamage(h, false, damage);
      r.armor >= 0 && r.life >= 0 && r.life + r.armor <= h.life + h.armor
      && (r.life > 0 ==> h.life + h.armor - (r.life + r.armor) == damage)
      && (r.life == 0 && h.life > 0 && h.state == Alive ==> r.state == Dying)
  {
  }

  /** The points multiplier for a kill `time` seconds after the previous one. */
  function Multiplier(time: real): (m: real)
    ensures 1.0 <= m <= 5.0
    ensures time < 1.0 <==> m == 5.0
    ensures time >= 10.0 <==> m == 1.0
  {
    if time < 1.0 then 5.0
    else if time < 3.0 then 3.0
    else if time < 5.0 then 2.0
    else if time < 10.0 then 1.5
    else 1.0
  }

  /** A quicker kill is worth at least as much. */
  lemma MultiplierMonotone(sooner: real, later: real)
    requires sooner <= later
    ensures Multiplier(later) <= Multiplier(sooner)
  {
  }

  /** mPoints += points * mult: the sum is formed in float and truncated back into the int. */
  function AddPoints(total: int, points: int, time: real): (r: int)
    ensures points >= 0 && total >= 0 ==> total + points <= r <= total + 5 * points
  {
    Trunc(total as real + points as real * Multiplier(time))
  }

  /** The pitch clamp of updateRotation. */
  function ClampPitch(x: real): (r: real)
    ensures -80.0 <= r <= 80.0
    ensures -80.0 <= x <= 80.0 ==> r == x
    ensures x > 80.0 ==> r == 80.0
    ensures x < -80.0 ==> r == -80.0
  {
    var a := if x > 80.0 then 80.0 else x;
    if a < -80.0 then -80.0 else a
  }

  /**
   * How deep the player stands in water, as a fraction of the height above ground, clamped into
   * [0, 1]: 0 with the feet above the surface, 1 with the head under it.
   */
  function WaterImmersion(waterHeight: real, y: real, heightAboveGround: real): (r: real)
    requires heightAboveGround > 0.0
    ensures 0.0 <= r <= 1.0
    ensures waterHeight <= y - heightAboveGround ==> r == 0.0
    ensures waterHeight >= y ==> r == 1.0
  {
    var w := (waterHeight - y + heightAboveGround) / heightAboveGround;
    var a := if w < 0.0 then 0.0 else w;
    if a > 1.0 then 1.0 else a
  }

  /** The on-screen message and its animation. */
  datatype Text = Text(message: string, zoom: real, fade: int, time: real)

  const Message := Text("", 0.0, 0, 0.0)

  /** drawMessage: show a message for four seconds, fully opaque, not yet zoomed. */
  function Shown(message: string): Text {
    Text(message, 0.0, 255, 4.0)
  }

  /** One frame of the message: it zooms and fades while time is left, otherwise its fade is 0. */
  function Animated(t: Text, delta: real): (r: Text)
    ensures r.message == t.message
    ensures !(t.time > 0.0 && t.message != "") ==> r == t.(fade := 0)
    ensures t.time > 0.0 && t.message != "" && delta > 0.0 ==> r.time < t.time && r.zoom > t.zoom && r.fade <= t.fade
  {
    if t.time > 0.0 && t.message != "" then
      Text(t.message, t.zoom + delta * 10.0, Trunc(t.fade as real - delta * 50.0), t.time - delta)
    else t.(fade := 0)
  }

  /**
   * The state switch of updateSelf after the god-mode override: the new state and life, and
   * whether the game-over message is shown.
   */
  function LifeStep(state: State, life: int, godMode: bool): (r: (State, int, bool))
    ensures godMode ==> r == (Alive, 100, false)
    ensures !godMode ==> r.1 == life
    ensures !godMode ==> r.0 == (if state == Spawning then Alive else if state == Dying then Dead else state)
    ensures r.2 <==> !godMode && state == Dying
  {
    var (s, l) := if godMode then (Alive, 100) else (state, life);
    match s
    case Spawning => (Alive, l, false)
    case Alive => (Alive, l, false)
    case Dying => (Dead, l, true)
    case Dead => (Dead, l, false)
  }

  /** Dead players stay dead, and a player comes back only through god mode. */
  lemma DeadStaysDead(life: int, godMode: bool)
    ensures LifeStep(Dead, life, godMode).0 == Dead <==> !godMode
  {
  }

  /**
   * The sprint bookkeeping of updatePosition outside god mode: whether shift is held, the
   * seconds sprinted so far, and the cool-down left.
   */
  datatype Sprint = Sprint(pressed: bool, counter: real, cooldown: real)

  /** A frame runs at double speed when shift is held and no cool-down is left. */
  predicate Sprinting(s: Sprint) {
    s.pressed && s.cooldown <= 0.0
  }

  /** The seconds sprinted once this frame is counted. */
  function Sprinted(s: Sprint, delta: real): real {
    if Sprinting(s) then s.counter + delta else s.counter
  }

  /**
   * One frame of sprinting: a sprint frame counts its time; three seconds of sprinting release
   * shift, restart the count and start a two-second cool-down; a running cool-down counts down.
   */
  function SprintStep(s: Sprint, delta: real): (r: Sprint)
    ensures r.counter < 3.0
    ensures r.pressed ==> s.pressed
    ensures s.pressed && !r.pressed <==> s.pressed && Sprinted(s, delta) >= 3.0
    ensures Sprinted(s, delta) >= 3.0 ==> r.counter == 0.0 && r.cooldown == 2.0 - delta
    ensures Sprinted(s, delta) < 3.0 ==>
      r.counter == Sprinted(s, delta) && r.cooldown == (if s.cooldown > 0.0 then s.cooldown - delta else s.cooldown)
  {
    var counter := Sprinted(s, delta);
    var r := if counter >= 3.0 then Sprint(false, 0.0, 2.0) else s.(counter := counter);
    if r.cooldown > 0.0 then r.(cooldown := r.cooldown - delta) else r
  }

  /**
   * What the sprint bookkeeping keeps from the constructor on: under three seconds sprinted,
   * a cool-down of at most two seconds, and no sprinted time while a cool-down runs.
   */
  predicate SprintValid(s: Sprint) {
    0.0 <= s.counter < 3.0 && s.cooldown <= 2.0 && (s.cooldown > 0.0 ==> s.counter == 0.0)
  }

  lemma SprintStepKeepsValid(s: Sprint, delta: real)
    requires SprintValid(s) && delta >= 0.0
    ensures SprintValid(SprintStep(s, delta))
  {
  }

  /** A cool-down blocks sprinting: the frame runs at walking speed and counts no sprint time. */
  lemma CoolDownBlocksSprint(s: Sprint, delta: real)
    requires SprintValid(s) && s.cooldown > 0.0
    ensures !Sprinting(s)
    ensures SprintStep(s, delta) == s.(cooldown := s.cooldown - delta)
  {
  }

  /** Shift held for 2.99 seconds and a 0.02-second frame: shift is released and the cool-down starts. */
  lemma ShiftReleasedAfterThreeSeconds()
    ensures SprintStep(Sprint(true, 2.99, 0.0), 0.02) == Sprint(false, 0.0, 1.98)
  {
  }

  /** The hint shown while the player stands by the placed torch. */
  const TakeTorchHint := "Press [E] to take torch."

  /** The player's torch: whether it stands in the world, and the seconds since it last moved. */
  datatype Torch = Torch(placed: bool, timer: real)

  /**
   * updateTorch: with E held and more than half a second since the last change, a placed torch
   * within reach is taken and a carried one is placed, and the timer restarts. The hint shows
   * while a placed torch is within reach.
   */
  function TorchStep(t: Torch, inReach: bool, use: bool): (r: (Torch, string))
    ensures r.1 == (if t.placed && inReach then TakeTorchHint else "")
    ensures r.0.placed != t.placed <==> use && t.timer > 0.5 && (inReach || !t.placed)
    ensures r.0.placed != t.placed ==> r.0.timer == 0.0
    ensures r.0.placed == t.placed ==> r.0 == t
  {
    var hint := if t.placed && inReach then TakeTorchHint else "";
    if t.timer > 0.5 && use && (!t.placed || inReach) then (Torch(!t.placed, 0.0), hint)
    else (t, hint)
  }

  /**
   * The timer debounces E: once the torch has moved, it stays put for the next half second
   * however E is held and wherever the player stands.
   */
  lemma TorchStaysForHalfSecond(t: Torch, inReach: bool, use: bool, d: real, inReach': bool, use': bool)
    requires TorchStep(t, inReach, use).0.placed != t.placed
    requires d <= 0.5
    ensures var moved := TorchStep(t, inReach, use).0;
            TorchStep(moved.(timer := moved.timer + d), inReach', use').0 == moved.(timer := moved.timer + d)
  {
  }

  class Player {
    var life: int
    var state: State
    var armor: int
    var godMode: bool
    var keys: Keys
    var points: int
    var killTimer: real
    var aliveTimer: real
    var torchTimer: real
    var torchPlaced: bool
    var usageText: string
    var speedCounter: real
    var speedCooldown: real
    var text: Text
    var axisRotationX: real
    var axisRotationY: real
    var mouseDelta: Vec2

    /**
     * A new player: life 100, spawning, 25 armor, god mode on, no key held, no points, no
     * sprint and the torch carried.
     */
    constructor ()
      ensures life == 100 && state == Spawning && armor == 25 && godMode
      ensures keys == NoKeys && points == 0 && killTimer == 0.0 && aliveTimer == 0.0 && torchTimer == 0.0
      ensures !torchPlaced && usageText == "" && speedCounter == 0.0 && speedCooldown == 0.0
      ensures SprintValid(Sprint(keys.speed, speedCounter, speedCooldown))
      ensures text == Message && axisRotationX == 0.0 && axisRotationY == 0.0 && mouseDelta == Vec2(0.0, 0.0)
    {
      life, state, armor, godMode := 100, Spawning, 25, true;
      keys, points := NoKeys, 0;
      killTimer, aliveTimer, torchTimer := 0.0, 0.0, 0.0;
      torchPlaced, usageText := false, "";
      speedCounter, speedCooldown := 0.0, 0.0;
      text := Message;
      axisRotationX, axisRotationY := 0.0, 0.0;
      mouseDelta := Vec2(0.0, 0.0);
    }

    /** keyPressEvent: a flag key sets its flag, R asks the weapon to reload; Tab and others are not accepted. */
    method KeyPress(key: Key) returns (accepted: bool, reload: bool)
      modifies this`keys
      ensures accepted <==> IsFlagKey(key) || key == KeyR
      ensures reload <==> key == KeyR
      ensures keys == if IsFlagKey(key) then SetFlag(old(keys), key, true) else old(keys)
    {
      reload := key == KeyR;
      accepted := IsFlagKey(key) || key == KeyR;
      if IsFlagKey(key) {
        keys := SetFlag(keys, key, true);
      }
    }

    /** keyReleaseEvent: a flag key clears its flag, Tab toggles god mode; R and others are not accepted. */
    method KeyRelease(key: Key) returns (accepted: bool)
      modifies this`keys, this`godMode
      ensures accepted <==> IsFlagKey(key) || key == KeyTab
      ensures keys == if IsFlagKey(key) then SetFlag(old(keys), key, false) else old(keys)
      ensures godMode == (if key == KeyTab then !old(godMode) else old(godMode))
    {
      accepted := IsFlagKey(key) || key == KeyTab;
      if IsFlagKey(key) {
        keys := SetFlag(keys, key, false);
      } else if key == KeyTab {
        godMode := !godMode;
      }
    }

    method MouseMove(delta: Vec2)
      modifies this`mouseDelta
      ensures mouseDelta == Vec2(old(mouseDelta).x + delta.x, old(mouseDelta).y + delta.y)
    {
      mouseDelta := Vec2(mouseDelta.x + delta.x, mouseDelta.y + delta.y);
    }

    method SetLife(l: int)
      modifies this`life
      ensures life == l
    {
      life := l;
    }

    method SetArmor(a: int)
      modifies this`armor
      ensures armor == a
    {
      armor := a;
    }

    method DrawMessage(message: string)
      modifies this`text
      ensures text == Shown(message)
    {
      text := Shown(message);
    }

    /** receiveDamage. */
    method ReceiveDamage(damage: int)
      modifies this`life, this`armor, this`state
      ensures Health(life, armor, state) == AfterDamage(Health(old(life), old(armor), old(state)), godMode, damage)
    {
      if !godMode {
        if armor >= damage {
          armor := armor - damage;
        } else {
          var admg := damage - armor;
          armor := armor - (damage - admg);
          life := life - admg;
          if life <= 0 {
            if state == Alive {
              state := Dying;
            }
            life := 0;
          }
        }
      }
    }

    /** receivePoints: add the points times the kill-streak multiplier, show them, restart the kill timer. */
    method ReceivePoints(p: int, format: real -> string)
      modifies this`points, this`text, this`killTimer
      ensures points == AddPoints(old(points), p, old(killTimer))
      ensures text == Shown(format(p as real * Multiplier(old(killTimer))))
      ensures killTimer == 0.0
    {
      var mult := Multiplier(killTimer);
      points := AddPoints(points, p, killTimer);
      DrawMessage(format(p as real * mult));
      killTimer := 0.0;
    }

    /** updateRotation: yaw and pitch follow the accumulated mouse movement; pitch stays within 80 degrees. */
    method UpdateRotation()
      modifies this`axisRotationX, this`axisRotationY, this`mouseDelta
      ensures axisRotationY == old(axisRotationY) - old(mouseDelta).x / 5.0
      ensures axisRotationX == ClampPitch(old(axisRotationX) + old(mouseDelta).y / 5.0)
      ensures mouseDelta == Vec2(0.0, 0.0)
    {
      axisRotationY := axisRotationY + -mouseDelta.x / 5.0;
      axisRotationX := axisRotationX + mouseDelta.y / 5.0;
      if axisRotationX > 80.0 {
        axisRotationX := 80.0;
      }
      if axisRotationX < -80.0 {
        axisRotationX := -80.0;
      }
      mouseDelta := Vec2(0.0, 0.0);
    }

    /** The sprint part of updatePosition outside god mode. */
    method UpdateSprint(delta: real)
      modifies this`keys, this`speedCounter, this`speedCooldown
      ensures var s := SprintStep(Sprint(old(keys).speed, old(speedCounter), old(speedCooldown)), delta);
        keys == old(keys).(speed := s.pressed) && speedCounter == s.counter && speedCooldown == s.cooldown
      ensures SprintValid(Sprint(old(keys).speed, old(speedCounter), old(speedCooldown))) && delta >= 0.0 ==>
        SprintValid(Sprint(keys.speed, speedCounter, speedCooldown))
    {
      var s := Sprint(keys.speed, speedCounter, speedCooldown);
      if SprintValid(s) && delta >= 0.0 {
        SprintStepKeepsValid(s, delta);
      }
      s := SprintStep(s, delta);
      keys := keys.(speed := s.pressed);
      speedCounter, speedCooldown := s.counter, s.cooldown;
    }

    /** updateTorch: take or place the torch, and show the hint by a placed torch within reach. */
    method UpdateTorch(inReach: bool)
      modifies this`torchPlaced, this`torchTimer, this`usageText
      ensures var step := TorchStep(Torch(old(torchPlaced), old(torchTimer)), inReach, keys.use);
        Torch(torchPlaced, torchTimer) == step.0 && usageText == step.1
    {
      var step := TorchStep(Torch(torchPlaced, torchTimer), inReach, keys.use);
      torchPlaced, torchTimer, usageText := step.0.placed, step.0.timer, step.1;
    }

    /** The ALIVE case of updateSelf: turn with the mouse, sprint outside god mode, handle the torch. */
    method UpdateAlive(delta: real, torchInReach: bool)
      modifies this`axisRotationX, this`axisRotationY, this`mouseDelta, this`keys, this`speedCounter
      modifies this`speedCooldown, this`torchPlaced, this`torchTimer, this`usageText
      ensures axisRotationX == ClampPitch(old(axisRotationX) + old(mouseDelta).y / 5.0)
      ensures axisRotationY == old(axisRotationY) - old(mouseDelta).x / 5.0 && mouseDelta == Vec2(0.0, 0.0)
      ensures var s := SprintStep(Sprint(old(keys).speed, old(speedCounter), old(speedCooldown)), delta);
        if !godMode then keys == old(keys).(speed := s.pressed) && speedCounter == s.counter && speedCooldown == s.cooldown
        else keys == old(keys) && speedCounter == old(speedCounter) && speedCooldown == old(speedCooldown)
      ensures SprintValid(Sprint(old(keys).speed, old(speedCounter), old(speedCooldown))) && delta >= 0.0 ==>
        SprintValid(Sprint(keys.speed, speedCounter, speedCooldown))
      ensures var step := TorchStep(Torch(old(torchPlaced), old(torchTimer)), torchInReach, old(keys).use);
        Torch(torchPlaced, torchTimer) == step.0 && usageText == step.1
    {
      UpdateRotation();
      if !godMode {
        UpdateSprint(delta);
      }
      UpdateTorch(torchInReach);
    }

    /** God mode keeps the player alive with full life. */
    method Revive()
      modifies this`state, this`life
      ensures (state, life) == if godMode then (Alive, 100) else (old(state), old(life))
    {
      if godMode {
        state := Alive;
        life := 100;
      }
    }

    /** The state switch of updateSelf for a player that is not alive. */
    method Advance()
      requires state != Alive
      modifies this`state, this`text
      ensures state == (if old(state) == Spawning then Alive else Dead)
      ensures text == (if old(state) == Dying then Shown("GAME OVER!") else old(text))
    {
      match state {
        case Spawning =>
          state := Alive;
        case Dying =>
          state := Dead;
          DrawMessage("GAME OVER!");
        case Dead =>
      }
    }

    /** The start of updateSelf: the timers run, the hint clears and the message animates. */
    method Tick(delta: real)
      modifies this`aliveTimer, this`killTimer, this`torchTimer, this`usageText, this`text
      ensures aliveTimer == old(aliveTimer) + delta && killTimer == old(killTimer) + delta
      ensures torchTimer == old(torchTimer) + delta && usageText == "" && text == Animated(old(text), delta)
    {
      aliveTimer := aliveTimer + delta;
      killTimer := killTimer + delta;
      torchTimer := torchTimer + delta;
      usageText := "";
      text := Animated(text, delta);
    }

    /** The rest of updateSelf: god mode revives the player, then the state switch runs. */
    method StateSwitch(delta: real, torchInReach: bool)
      modifies this`usageText, this`text, this`state, this`life, this`axisRotationX, this`axisRotationY
      modifies this`mouseDelta, this`keys, this`speedCounter, this`speedCooldown, this`torchPlaced, this`torchTimer
      ensures var step := LifeStep(old(state), old(life), godMode);
        state == step.0 && life == step.1 && text == (if step.2 then Shown("GAME OVER!") else old(text))
      ensures godMode || old(state) == Alive ==>
        (axisRotationX == ClampPitch(old(axisRotationX) + old(mouseDelta).y / 5.0)
         && axisRotationY == old(axisRotationY) - old(mouseDelta).x / 5.0 && mouseDelta == Vec2(0.0, 0.0))
      ensures !(godMode || old(state) == Alive) ==>
        axisRotationX == old(axisRotationX) && axisRotationY == old(axisRotationY) && mouseDelta == old(mouseDelta)
      ensures var step := TorchStep(Torch(old(torchPlaced), old(torchTimer)), torchInReach, old(keys).use);
        if godMode || old(state) == Alive then Torch(torchPlaced, torchTimer) == step.0 && usageText == step.1
        else torchPlaced == old(torchPlaced) && torchTimer == old(torchTimer) && usageText == old(usageText)
      ensures var s := SprintStep(Sprint(old(keys).speed, old(speedCounter), old(speedCooldown)), delta);
        if !godMode && old(state) == Alive
        then keys == old(keys).(speed := s.pressed) && speedCounter == s.counter && speedCooldown == s.cooldown
        else keys == old(keys) && speedCounter == old(speedCounter) && speedCooldown == old(speedCooldown)
      ensures SprintValid(Sprint(old(keys).speed, old(speedCounter), old(speedCooldown))) && delta >= 0.0 ==>
        SprintValid(Sprint(keys.speed, speedCounter, speedCooldown))
    {
      Revive();
      if state == Alive {
        UpdateAlive(delta, torchInReach);
      } else {
        Advance();
      }
    }

    /**
     * updateSelf: the timers run, the hint clears, the message animates, god mode revives the
     * player, and the state switch runs. An alive player turns with the mouse, sprints (outside
     * god mode) and handles the torch; `torchInReach` is the 2.5-unit distance test between the
     * player and the placed torch.
     */
    method UpdateSelf(delta: real, torchInReach: bool)
      modifies this`aliveTimer, this`killTimer, this`torchTimer, this`usageText, this`text, this`state, this`life
      modifies this`axisRotationX, this`axisRotationY, this`mouseDelta, this`keys, this`speedCounter
      modifies this`speedCooldown, this`torchPlaced
      ensures aliveTimer == old(aliveTimer) + delta && killTimer == old(killTimer) + delta
      ensures var step := LifeStep(old(state), old(life), old(godMode));
        state == step.0 && life == step.1 && text == (if step.2 then Shown("GAME OVER!") else Animated(old(text), delta))
      ensures old(godMode) || old(state) == Alive ==>
        (axisRotationX == ClampPitch(old(axisRotationX) + old(mouseDelta).y / 5.0)
         && axisRotationY == old(axisRotationY) - old(mouseDelta).x / 5.0 && mouseDelta == Vec2(0.0, 0.0))
      ensures !(old(godMode) || old(state) == Alive) ==>
        axisRotationX == old(axisRotationX) && axisRotationY == old(axisRotationY) && mouseDelta == old(mouseDelta)
      ensures var step := TorchStep(Torch(old(torchPlaced), old(torchTimer) + delta), torchInReach, old(keys).use);
        if old(godMode) || old(state) == Alive then Torch(torchPlaced, torchTimer) == step.0 && usageText == step.1
        else torchPlaced == old(torchPlaced) && torchTimer == old(torchTimer) + delta && usageText == ""
      ensures var s := SprintStep(Sprint(old(keys).speed, old(speedCounter), old(speedCooldown)), delta);
        if !old(godMode) && old(state) == Alive
        then keys == old(keys).(speed := s.pressed) && speedCounter == s.counter && speedCooldown == s.cooldown
        else keys == old(keys) && speedCounter == old(speedCounter) && speedCooldown == old(speedCooldown)
      ensures SprintValid(Sprint(old(keys).speed, old(speedCounter), old(speedCooldown))) && delta >= 0.0 ==>
        SprintValid(Sprint(keys.speed, speedCounter, speedCooldown))
      ensures armor == old(armor) && points == old(points) && godMode == old(godMode)
    {
      Tick(delta);
      StateSwitch(delta, torchInReach);
    }
  }
}
