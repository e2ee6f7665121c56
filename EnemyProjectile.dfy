/**
 * An enemy's projectile: it carries the attack it was fired with, hits the
 * player (or, for attacks that may, another enemy) it touches, and is
 * destroyed by its first trigger contact.
 */
module EnemyProjectiles {
  import opened Wrappers
  import opened CombatData

  /** The faction rule: the player is always hit, an enemy only by an attack that can hit allies. */
  predicate HitsTarget(attack: Attack, tag: string): (hit: bool)
    ensures tag == "Player" ==> hit
    ensures tag == "Enemy" ==> (hit <==> attack.canHitAllies)
    ensures tag != "Player" && tag != "Enemy" ==> !hit
  {
    (attack.canHitAllies && tag == "Enemy") || tag == "Player"
  }

  class EnemyProjectile {
    var attack: Option<Attack>
    var destroyed: bool
    /** Every GetHit call this projectile made. */
    var hits: seq<HitCall>

    /** At most one hit, and a projectile that hit something is destroyed. */
    ghost predicate Valid()
      reads this
    {
      |hits| <= 1 && (|hits| == 1 ==> destroyed)
    }

    constructor ()
      ensures Valid()
      ensures attack == None && !destroyed && hits == []
    {
      attack := None;
      destroyed := false;
      hits := [];
    }

    /** Stores the attack the projectile delivers. */
    method Fire(atk: Attack)
      requires Valid()
      modifies this
      ensures Valid()
      ensures attack == Some(atk)
      ensures destroyed == old(destroyed) && hits == old(hits)
    {
      attack := Some(atk);
    }

    /**
     * A trigger contact with `other`'s CombatTarget, if it has one. With none
     * the projectile is destroyed; otherwise it hits the target when the
     * faction rule allows, forwarding the stored attack unchanged, and is
     * destroyed. Reading an attack never fired throws (`fault`). A destroyed
     * projectile receives no further contacts.
     */
    method OnTriggerEnter(other: Option<CombatTargetRef>) returns (fault: bool)
      requires Valid()
      modifies this
      ensures Valid()
      ensures attack == old(attack)
      ensures old(destroyed) ==> !fault && destroyed && hits == old(hits)
      ensures !old(destroyed) && other.None? ==> !fault && destroyed && hits == old(hits)
      ensures !old(destroyed) && other.Some? && attack.None? ==>
                fault && !destroyed && hits == old(hits)
      ensures !old(destroyed) && other.Some? && attack.Some? ==>
                && !fault && destroyed
                && hits == old(hits) + if HitsTarget(attack.value, other.value.tag)
                   then [HitCall(other.value.id, attack.value.damage, attack.value.isPowerful, attack.value.hitEffect)]
                   else []
    {
      if destroyed {
        return false;
      }
      if other.None? {
        destroyed := true;
        return false;
      }
      if attack.None? {
        return true;
      }
      var tgt, atk := other.value, attack.value;
      if atk.canHitAllies && tgt.tag == "Enemy" {
        hits := hits + [HitCall(tgt.id, atk.damage, atk.isPowerful, atk.hitEffect)];
      } else if tgt.tag == "Player" {
        hits := hits + [HitCall(tgt.id, atk.damage, atk.isPowerful, atk.hitEffect)];
      }
      destroyed := true;
      fault := false;
    }
  }
}
