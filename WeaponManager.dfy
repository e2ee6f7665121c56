/**
 * The weapon slot manager: a primary and a secondary weapon taken from the
 * arsenal, one of them equipped at a time, with one hand object spawned per
 * hand prefab of the equipped weapon.
 */
module Weapons {
  import opened Wrappers
  import opened CombatData

  /** A game object spawned by Instantiate. */
  type ObjectId = nat

  /** The hand objects a weapon spawns: one per non-null prefab, left hand first. */
  function HandPrefabCount(w: Weapon): (n: nat)
    ensures n <= 2
    ensures n == 0 <==> w.leftHandPrefab.None? && w.rightHandPrefab.None?
    ensures n == 2 <==> w.leftHandPrefab.Some? && w.rightHandPrefab.Some?
  {
    (if w.leftHandPrefab.Some? then 1 else 0) + (if w.rightHandPrefab.Some? then 1 else 0)
  }

  /** The ids `from`, `from + 1`, ..., `from + n - 1`, in order. */
  function Range(from: nat, n: nat): seq<ObjectId>
  {
    seq(n, k requires 0 <= k < n => from + k)
  }

  /** Every mutable field of a weapon manager. */
  datatype Slots = Slots(
    arsenal: seq<Weapon>, primaryWeaponIdx: int, secondaryWeaponIdx: int,
    weapon: Option<Weapon>, primaryWeapon: Option<Weapon>, secondaryWeapon: Option<Weapon>,
    equippedWeaponObjects: seq<ObjectId>, destroyedObjects: set<ObjectId>,
    nextObjectId: ObjectId, animWeaponId: int)

  /** The objects a list holds. */
  function Elements(s: seq<ObjectId>): set<ObjectId> {
    set k | 0 <= k < |s| :: s[k]
  }

  /** Every listed object was spawned earlier, and none is listed twice. */
  ghost predicate SlotsValid(s: Slots) {
    && NoDuplicates(s.equippedWeaponObjects)
    && forall k :: 0 <= k < |s.equippedWeaponObjects| ==> s.equippedWeaponObjects[k] < s.nextObjectId
  }

  /** Unequip from slots `s`: every listed object destroyed, no weapon, animator id 0, the list kept. */
  function Unequipped(s: Slots): Slots {
    s.(weapon := None, animWeaponId := 0,
       destroyedObjects := s.destroyedObjects + Elements(s.equippedWeaponObjects))
  }

  /**
   * Equip(weaponId) from slots `s`: Unequip, then the primary slot for id 1
   * and the secondary for any other id; a weapon spawns one fresh object per
   * hand prefab and sets the animator id.
   */
  function Equipped(s: Slots, weaponId: int): Slots {
    var u := Unequipped(s);
    var w := if weaponId == 1 then s.primaryWeapon else s.secondaryWeapon;
    match w
    case None => u
    case Some(x) =>
      u.(weapon := w,
         equippedWeaponObjects := s.equippedWeaponObjects + Range(s.nextObjectId, HandPrefabCount(x)),
         nextObjectId := s.nextObjectId + HandPrefabCount(x),
         animWeaponId := x.animId)
  }

  /**
   * Neither operation ever drops an object from the list or a destroyed
   * object from the destroyed set, both keep the slots and the arsenal, and
   * both keep the list's invariant.
   */
  lemma EquipKeeps(s: Slots, weaponId: int)
    requires SlotsValid(s)
    ensures var e := Equipped(s, weaponId);
      && SlotsValid(e) && SlotsValid(Unequipped(s))
      && s.equippedWeaponObjects <= e.equippedWeaponObjects
      && s.destroyedObjects <= e.destroyedObjects
      && e.arsenal == s.arsenal && e.primaryWeapon == s.primaryWeapon && e.secondaryWeapon == s.secondaryWeapon
      && (e.weapon.None? <==> (if weaponId == 1 then s.primaryWeapon else s.secondaryWeapon).None?)
  {
  }

  class WeaponManager {
    var arsenal: seq<Weapon>
    var primaryWeaponIdx: int
    var secondaryWeaponIdx: int
    var weapon: Option<Weapon>
    var primaryWeapon: Option<Weapon>
    var secondaryWeapon: Option<Weapon>
    var equippedWeaponObjects: seq<ObjectId>
    /** Objects passed to Destroy. */
    var destroyedObjects: set<ObjectId>
    /** The id the next Instantiate returns. */
    var nextObjectId: ObjectId
    /** The animator's "weaponId" parameter. */
    var animWeaponId: int

    /** A snapshot of every mutable field. */
    ghost function State(): Slots
      reads this
    {
      Slots(arsenal, primaryWeaponIdx, secondaryWeaponIdx, weapon, primaryWeapon, secondaryWeapon,
            equippedWeaponObjects, destroyedObjects, nextObjectId, animWeaponId)
    }

    /** The list invariant on the current fields. */
    ghost predicate Valid()
      reads this
    {
      SlotsValid(State())
    }

    /** Awake: an empty object list; no weapon chosen yet. */
    constructor (arsenal: seq<Weapon>)
      ensures Valid()
      ensures this.arsenal == arsenal
      ensures weapon == None && primaryWeapon == None && secondaryWeapon == None
      ensures equippedWeaponObjects == [] && destroyedObjects == {} && animWeaponId == 0
    {
      this.arsenal := arsenal;
      primaryWeaponIdx, secondaryWeaponIdx := 0, 0;
      weapon, primaryWeapon, secondaryWeapon := None, None, None;
      equippedWeaponObjects := [];
      destroyedObjects := {};
      nextObjectId := 0;
      animWeaponId := 0;
    }

    /**
     * Start: the primary slot takes arsenal index 0 and the secondary slot
     * index 2. An arsenal too short for an index makes that read throw
     * (`fault`), leaving the slots read so far.
     */
    method Start() returns (fault: bool)
      requires Valid()
      modifies this
      ensures Valid()
      ensures primaryWeaponIdx == 0 && secondaryWeaponIdx == 2
      ensures fault <==> |arsenal| < 3
      ensures State() == old(State()).(
        primaryWeaponIdx := 0, secondaryWeaponIdx := 2,
        primaryWeapon := if |arsenal| >= 1 then Some(arsenal[0]) else old(primaryWeapon),
        secondaryWeapon := if |arsenal| >= 3 then Some(arsenal[2]) else old(secondaryWeapon))
    {
      primaryWeaponIdx := 0;
      secondaryWeaponIdx := 2;
      if |arsenal| <= primaryWeaponIdx {
        return true;
      }
      primaryWeapon := Some(arsenal[primaryWeaponIdx]);
      if |arsenal| <= secondaryWeaponIdx {
        return true;
      }
      secondaryWeapon := Some(arsenal[secondaryWeaponIdx]);
      fault := false;
    }

    /**
     * Destroys every listed hand object and clears the weapon. The list
     * itself is kept.
     */
    method Unequip()
      requires Valid()
      modifies this
      ensures Valid()
      ensures State() == Unequipped(old(State()))
    {
      var i := 0;
      while i < |equippedWeaponObjects|
        invariant 0 <= i <= |equippedWeaponObjects|
        invariant destroyedObjects == old(destroyedObjects) + set k | 0 <= k < i :: equippedWeaponObjects[k]
        modifies this`destroyedObjects
      {
        destroyedObjects := destroyedObjects + {equippedWeaponObjects[i]};
        i := i + 1;
      }
      assert destroyedObjects == old(destroyedObjects) + Elements(equippedWeaponObjects);
      weapon := None;
      animWeaponId := 0;
    }

    /** Spawns `prefab` and lists the new object. */
    method SpawnHandObject(prefab: PrefabId)
      requires Valid()
      modifies this
      ensures Valid()
      ensures State() == old(State()).(
        equippedWeaponObjects := old(equippedWeaponObjects) + [old(nextObjectId)],
        nextObjectId := old(nextObjectId) + 1)
    {
      equippedWeaponObjects := equippedWeaponObjects + [nextObjectId];
      nextObjectId := nextObjectId + 1;
    }

    /** Spawns the left-hand prefab, then the right-hand one, each when the weapon has it. */
    method SpawnHandObjects(w: Weapon)
      requires Valid()
      modifies this
      ensures Valid()
      ensures State() == old(State()).(
        equippedWeaponObjects := old(equippedWeaponObjects) + Range(old(nextObjectId), HandPrefabCount(w)),
        nextObjectId := old(nextObjectId) + HandPrefabCount(w))
    {
      if w.leftHandPrefab.Some? {
        SpawnHandObject(w.leftHandPrefab.value);
      }
      if w.rightHandPrefab.Some? {
        SpawnHandObject(w.rightHandPrefab.value);
      }
      assert equippedWeaponObjects == old(equippedWeaponObjects) + Range(old(nextObjectId), HandPrefabCount(w));
    }

    /**
     * Unequips, then equips the primary weapon for id 1 and the secondary
     * weapon for any other id, spawning one object per hand prefab. An empty
     * slot makes the prefab read throw (`fault`).
     */
    method Equip(weaponId: int) returns (fault: bool)
      requires Valid()
      modifies this
      ensures Valid()
      ensures State() == Equipped(old(State()), weaponId)
      ensures fault <==> weapon == None
    {
      Unequip();
      if weaponId == 1 {
        weapon := primaryWeapon;
      } else {
        weapon := secondaryWeapon;
      }
      if weapon.None? {
        return true;
      }
      SpawnHandObjects(weapon.value);
      animWeaponId := weapon.value.animId;
      fault := false;
    }
  }
}
