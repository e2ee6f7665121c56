/**
 * The character health component: the combat package's clamped health, plus
 * a death notification to the parent controller.
 */
module CharacterHealth {
  import CombatHealth

  class Health {
    const maxHealth: real
    var currentHealth: real
    var isDead: bool
    /** How many times `parentController.Die()` has been called. */
    var parentDieCalls: nat
    /** Of those, how many TakeDamage made. */
    ghost var deathsByDamage: nat

    /**
     * The clamped-health invariant, and: TakeDamage notifies the parent at
     * most once, and only for a component that is now dead.
     */
    ghost predicate Valid()
      reads this
    {
      && Bounded()
      && (currentHealth == 0.0 ==> isDead)
      && (!isDead ==> deathsByDamage == 0)
    }

    ghost predicate Bounded()
      reads this
    {
      && maxHealth == 100.0
      && 0.0 <= currentHealth
      && deathsByDamage <= 1
      && deathsByDamage <= parentDieCalls
    }

    /** Field initializers and Awake: full health, alive, parent not yet notified. */
    constructor ()
      ensures Valid()
      ensures currentHealth == maxHealth == 100.0 && !isDead && parentDieCalls == 0
    {
      maxHealth := 100.0;
      isDead := false;
      currentHealth := maxHealth;
      parentDieCalls := 0;
      deathsByDamage := 0;
    }

    /**
     * Once dead, nothing happens. Otherwise the health drops by `damage`,
     * clamped at zero, and on reaching zero the component dies and notifies
     * its parent.
     */
    method TakeDamage(damage: real)
      requires Valid()
      modifies this
      ensures Valid()
      ensures old(isDead) ==> currentHealth == old(currentHealth) && isDead && parentDieCalls == old(parentDieCalls)
      ensures !old(isDead) ==> currentHealth == CombatHealth.Max(0.0, old(currentHealth) - damage)
      ensures !old(isDead) ==> (isDead <==> currentHealth == 0.0)
      ensures parentDieCalls == old(parentDieCalls) + (if !old(isDead) && isDead then 1 else 0)
      ensures parentDieCalls - deathsByDamage == old(parentDieCalls - deathsByDamage)
      ensures damage >= 0.0 ==> currentHealth <= old(currentHealth)
      ensures old(currentHealth) <= maxHealth && damage >= 0.0 ==> currentHealth <= maxHealth
    {
      if isDead {
        return;
      }
      currentHealth := CombatHealth.Max(0.0, currentHealth - damage);
      if currentHealth <= 0.0 {
        Die();
        deathsByDamage := deathsByDamage + 1;
      }
    }

    /** Marks the component dead and notifies the parent, on every call. */
    method Die()
      requires Bounded()
      modifies this
      ensures Valid()
      ensures isDead && currentHealth == old(currentHealth)
      ensures parentDieCalls == old(parentDieCalls) + 1 && deathsByDamage == old(deathsByDamage)
    {
      isDead := true;
      parentDieCalls := parentDieCalls + 1;
    }
  }
}
