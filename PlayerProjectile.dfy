/**
 * The player's projectile: it carries a damage payload, hits the first enemy
 * it touches and is destroyed then, and passes through everything else that
 * has a CombatTarget.
 */
module PlayerProjectiles {
  import opened Wrappers
  import opened CombatData

  class PlayerProjectile {
    var damage: real
    var isPowerful: bool
    var hitEffect: Option<FxId>
    var destroyed: bool
    /** Every GetHit call this projectile made. */
    var hits: seq<HitCall>

    /** At most one hit, and a projectile that hit something is destroyed. */
    ghost predicate Valid()
      reads this
    {
      |hits| <= 1 && (|hits| == 1 ==> destroyed)
    }

    constructor ()
      ensures Valid()
      ensures damage == 0.0 && !isPowerful && hitEffect == None && !destroyed && hits == []
    {
      damage := 0.0;
      isPowerful := false;
      hitEffect := None;
      destroyed := false;
      hits := [];
    }

    /** Stores the payload verbatim. */
    method Fire(dmg: real, hitFX: Option<FxId>, powerful: bool)
      requires Valid()
      modifies this
      ensures Valid()
      ensures damage == dmg && hitEffect == hitFX && isPowerful == powerful
      ensures destroyed == old(destroyed) && hits == old(hits)
    {
      damage := dmg;
      hitEffect := hitFX;
      isPowerful := powerful;
    }

    /**
     * A trigger contact with `other`'s CombatTarget, if it has one. With none
     * the projectile is destroyed; a target tagged "Enemy" is hit with the
     * payload and the projectile destroyed; any other target is passed
     * through. A destroyed projectile receives no further contacts.
     */
    method OnTriggerEnter(other: Option<CombatTargetRef>)
      requires Valid()
      modifies this
      ensures Valid()
      ensures damage == old(damage) && isPowerful == old(isPowerful) && hitEffect == old(hitEffect)
      ensures old(destroyed) ==> destroyed && hits == old(hits)
      ensures !old(destroyed) && other.None? ==> destroyed && hits == old(hits)
      ensures !old(destroyed) && other.Some? && other.value.tag == "Enemy" ==>
                destroyed && hits == old(hits) + [HitCall(other.value.id, damage, isPowerful, hitEffect)]
      ensures !old(destroyed) && other.Some? && other.value.tag != "Enemy" ==>
                !destroyed && hits == old(hits)
    {
      if destroyed {
        return;
      }
      if other.None? {
        destroyed := true;
      } else if other.value.tag == "Enemy" {
        hits := hits + [HitCall(other.value.id, damage, isPowerful, hitEffect)];
        destroyed := true;
      }
    }
  }
}
