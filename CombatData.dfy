/**
 * The plain records the combat code reads: weapons, attacks, hit targets and
 * the GetHit calls one combatant makes on another. Engine objects (prefabs,
 * effects, game objects) are opaque identifiers.
 */
module CombatData {
  import opened Wrappers

  /** A hit-effect prefab. */
  type FxId = nat
  /** A prefab that is instantiated into a hand. */
  type PrefabId = nat
  /** A game object carrying a CombatTarget component. */
  type TargetId = nat

  datatype FireType = Normal | Charge | Repeat

  datatype AttackType = MeleeAttack | RangedAttack

  /** The fields of a weapon asset that the combat code reads. */
  datatype Weapon = Weapon(
    animId: int,
    attackDamage: real,
    chargeTime: real,
    hitFX: Option<FxId>,
    fireType: FireType,
    attackType: AttackType,
    rightHandPrefab: Option<PrefabId>,
    leftHandPrefab: Option<PrefabId>)

  /** An attack as the enemy projectile uses it. */
  datatype Attack = Attack(
    damage: real,
    isPowerful: bool,
    canHitAllies: bool,
    hitEffect: Option<FxId>,
    projectileSpeed: real)

  /** The CombatTarget component found on a collider, with its object's tag. */
  datatype CombatTargetRef = CombatTargetRef(id: TargetId, tag: string)

  /** One call `target.GetHit(hitter, damage, powerful, fx)`. */
  datatype HitCall = HitCall(target: TargetId, damage: real, powerful: bool, fx: Option<FxId>)

  /** The game object passed to GetHit as the hitter, classified by its components. */
  datatype Hitter =
    | EnemyHitter(enemy: nat)
    | ProjectileHitter(projectile: nat)
    | OtherHitter

  /** No target appears twice. */
  predicate NoDuplicates<T(==)>(s: seq<T>) {
    forall i, j :: 0 <= i < j < |s| ==> s[i] != s[j]
  }
}
