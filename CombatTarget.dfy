/**
 * The base of every hittable combatant: health without a lower clamp, and a
 * death that is triggered again each time the health is at or below zero.
 */
module CombatTargets {
  import opened Wrappers
  import opened CombatData

  class CombatTarget {
    var maxHealth: real
    var currentHealth: real
    var isDead: bool
    /** How many times Die has run. */
    var dieCalls: nat

    /** The component as serialized: health fields at their defaults. */
    constructor (maxHealth: real)
      ensures this.maxHealth == maxHealth
      ensures currentHealth == 0.0 && !isDead && dieCalls == 0
    {
      this.maxHealth := maxHealth;
      currentHealth := 0.0;
      isDead := false;
      dieCalls := 0;
    }

    /** Start: the current health starts at the maximum. */
    method Start()
      modifies this
      ensures currentHealth == maxHealth
      ensures maxHealth == old(maxHealth) && isDead == old(isDead) && dieCalls == old(dieCalls)
    {
      currentHealth := maxHealth;
    }

    /** The base GetHit ignores every hit. */
    method GetHit(hitter: Hitter, damage: real, powerful: bool, fx: Option<FxId>)
      ensures unchanged(this)
    {
    }

    /** Marks the target dead; nothing ever clears the flag. */
    method Die()
      modifies this
      ensures isDead && dieCalls == old(dieCalls) + 1
      ensures maxHealth == old(maxHealth) && currentHealth == old(currentHealth)
    {
      isDead := true;
      dieCalls := dieCalls + 1;
    }

    /**
     * Subtracts `damage` with no clamp and runs Die whenever the result is
     * at or below zero, whether or not the target is already dead.
     */
    method TakeDamage(damage: real)
      modifies this
      ensures currentHealth == old(currentHealth) - damage
      ensures dieCalls == old(dieCalls) + (if currentHealth <= 0.0 then 1 else 0)
      ensures isDead == (old(isDead) || currentHealth <= 0.0)
      ensures damage >= 0.0 ==> currentHealth <= old(currentHealth)
      ensures maxHealth == old(maxHealth)
    {
      currentHealth := currentHealth - damage;
      if currentHealth <= 0.0 {
        Die();
      }
    }
  }
}
