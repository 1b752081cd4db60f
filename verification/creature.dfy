/**
 * ACreature: the life points and the four-state life cycle shared by every creature.
 */
module Creature {
  datatype State = Spawning | Alive | Dying | Dead

  /** The base receiveDamage: subtract the damage, never below 0. */
  function Damaged(life: int, damage: int): (r: int)
    ensures r >= 0
    ensures life - damage >= 0 ==> r == life - damage
    ensures life - damage < 0 ==> r == 0
  {
    if life - damage < 0 then 0 else life - damage
  }

  /** More damage never leaves more life. */
  lemma DamageMonotone(life: int, less: int, more: int)
    requires less <= more
    ensures Damaged(life, more) <= Damaged(life, less)
  {
  }

  /** Two hits of non-negative damage on non-negative life act as one hit of their sum. */
  lemma DamageAccumulates(life: int, first: int, second: int)
    requires life >= 0 && first >= 0 && second >= 0
    ensures Damaged(Damaged(life, first), second) == Damaged(life, first + second)
  {
  }

  class Creature {
    var state: State
    var life: int

    /** The initial state and life are whatever the concrete creature gives them. */
    constructor (state: State, life: int)
      ensures this.state == state && this.life == life
    {
      this.state := state;
      this.life := life;
    }

    /** receiveDamage: life drops by the damage and stops at 0; the state is left alone. */
    method ReceiveDamage(damage: int)
      modifies this
      ensures life == Damaged(old(life), damage) && state == old(state)
    {
      life := life - damage;
      if life < 0 {
        life := 0;
      }
    }

    /** setState and setLife store any value, negative life included. */
    method SetState(s: State)
      modifies this`state
      ensures state == s
    {
      state := s;
    }

    method SetLife(l: int)
      modifies this`life
      ensures life == l
    {
      life := l;
    }
  }
}
