/**
 * The health component of the combat package: health clamped at zero, and
 * damage ignored once dead.
 */
module CombatHealth {

  /** `Mathf.Max`: the larger of the two. */
  function Max(a: real, b: real): (m: real)
    ensures a <= m && b <= m
    ensures m == a || m == b
  {
    if a >= b then a else b
  }

  class Health {
    const maxHealth: real
    var currentHealth: real
    var isDead: bool

    /**
     * Health never drops below zero, stays within the maximum, and a health
     * of zero always means dead.
     */
    ghost predicate Valid()
      reads this
    {
      Bounded() && (currentHealth == 0.0 ==> isDead)
    }

    ghost predicate Bounded()
      reads this
    {
      maxHealth == 100.0 && 0.0 <= currentHealth
    }

    /** Field initializers and Awake: full health, alive. */
    constructor ()
      ensures Valid()
      ensures currentHealth == maxHealth == 100.0 && !isDead
    {
      maxHealth := 100.0;
      isDead := false;
      currentHealth := maxHealth;
    }

    /**
     * Once dead, nothing happens. Otherwise the health drops by `damage`,
     * clamped at zero, and the component dies exactly when it reaches zero.
     */
    method TakeDamage(damage: real)
      requires Valid()
      modifies this
      ensures Valid()
      ensures old(isDead) ==> currentHealth == old(currentHealth) && isDead
      ensures !old(isDead) ==> currentHealth == Max(0.0, old(currentHealth) - damage)
      ensures !old(isDead) ==> (isDead <==> currentHealth == 0.0)
      ensures damage >= 0.0 ==> currentHealth <= old(currentHealth)
      ensures old(currentHealth) <= maxHealth && damage >= 0.0 ==> currentHealth <= maxHealth
    {
      if isDead {
        return;
      }
      currentHealth := Max(0.0, currentHealth - damage);
      if currentHealth <= 0.0 {
        Die();
      }
    }

    /** Marks the component dead; nothing ever clears the flag. */
    method Die()
      requires Bounded()
      modifies this
      ensures Valid()
      ensures isDead && currentHealth == old(currentHealth)
    {
      isDead := true;
    }
  }
}
