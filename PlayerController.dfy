/**
 * The player's combat state machine: how incoming hits are dodged, blocked,
 * parried or taken; how a swing hits each target at most once; and how
 * animation events move the control and attack states.
 */
module Player {
  import opened Wrappers
  import opened CombatData
  import opened PlayerEvents
  import CombatTargets
  import Weapons

  datatype ControlState = Locomotion | Attacking | Dodge | Hit | Block

  datatype AttackState = Swing | Continue | End

  /** A call the player makes on another object. */
  datatype PlayerEvent =
    | GetHitCall(call: HitCall)
    | GetParriedCall(enemy: nat)
    | DeflectCall(projectile: nat, multiplier: real)

  /** The input read while attacking. */
  datatype AttackInput = AttackInput(jumpDown: bool, comboHeld: bool, comboDown: bool, blockHeld: bool)

  /** The call a parry makes on the hitter: GetParried on an enemy, Deflect on a projectile, none otherwise. */
  function ParryReply(hitter: Hitter, multiplier: real): seq<PlayerEvent>
  {
    match hitter
    case EnemyHitter(e) => [GetParriedCall(e)]
    case ProjectileHitter(p) => [DeflectCall(p, multiplier)]
    case OtherHitter => []
  }

  /** The weapon manager after ToggleBlock's arming step: the primary weapon equipped when none is held. */
  function Armed(s: Weapons.Slots): Weapons.Slots {
    if s.weapon.None? then Weapons.Equipped(s, 1) else s
  }

  /** Every mutable field of the player, so that a method can state its whole new state at once. */
  datatype Snapshot = Snapshot(
    controlState: ControlState, attackState: AttackState,
    dodgeMovement: bool, attackMovement: bool, hitMovement: bool,
    chargingAttack: bool, chargeTime: real, attackIsPowerful: bool, lastBlockTime: real,
    attackHits: seq<TargetId>, events: seq<PlayerEvent>, swingHits: seq<TargetId>)

  /** The log entries of a run of GetHit calls, in order. */
  function AsEvents(calls: seq<HitCall>): seq<PlayerEvent>
  {
    seq(|calls|, k requires 0 <= k < |calls| => GetHitCall(calls[k]))
  }

  /**
   * The outcome of one melee scan over `colliders`, from the registry
   * `hits0`, the call log `events0` and the window's targets `swing0`. With
   * a weapon, every new target is registered and hit with the weapon's
   * damage and effect. Without one, the first new target is registered and
   * reading the weapon's damage then throws.
   */
  ghost predicate MeleeOutcome(
    hits0: seq<TargetId>, events0: seq<PlayerEvent>, swing0: seq<TargetId>,
    weapon: Option<Weapon>, powerful: bool, colliders: seq<Option<TargetId>>,
    hits: seq<TargetId>, events: seq<PlayerEvent>, swing: seq<TargetId>, fault: bool)
  {
    var nt := NewTargets(hits0, colliders);
    match weapon
    case Some(w) =>
      && !fault
      && hits == hits0 + nt
      && swing == swing0 + nt
      && events == events0 + AsEvents(HitCallsFor(nt, w.attackDamage, powerful, w.hitFX))
    case None =>
      && fault == (|nt| > 0)
      && hits == hits0 + nt[..if |nt| > 0 then 1 else 0]
      && swing == swing0
      && events == events0
  }

  /** One step of the scan over `cs`: the first collider is new, or it is skipped. */
  lemma ScanStep(done: seq<TargetId>, seen: seq<TargetId>, cs: seq<Option<TargetId>>, all: seq<TargetId>)
    requires |cs| > 0
    requires done + NewTargets(seen, cs) == all
    ensures cs[0].Some? && cs[0].value !in seen ==>
              (done + [cs[0].value]) + NewTargets(seen + [cs[0].value], cs[1..]) == all
    ensures !(cs[0].Some? && cs[0].value !in seen) ==> done + NewTargets(seen, cs[1..]) == all
  {
    if cs[0].Some? && cs[0].value !in seen {
      assert NewTargets(seen, cs) == [cs[0].value] + NewTargets(seen + [cs[0].value], cs[1..]);
    }
  }

  /** Hitting one more target appends one GetHit call to the log. */
  lemma HitEventsSnoc(ts: seq<TargetId>, t: TargetId, damage: real, powerful: bool, fx: Option<FxId>)
    ensures AsEvents(HitCallsFor(ts + [t], damage, powerful, fx)) ==
            AsEvents(HitCallsFor(ts, damage, powerful, fx)) + [GetHitCall(HitCall(t, damage, powerful, fx))]
  {
    var l := AsEvents(HitCallsFor(ts + [t], damage, powerful, fx));
    var r := AsEvents(HitCallsFor(ts, damage, powerful, fx)) + [GetHitCall(HitCall(t, damage, powerful, fx))];
    assert |l| == |r|;
    forall k | 0 <= k < |l| ensures l[k] == r[k] {
      if k < |ts| {
        assert (ts + [t])[k] == ts[k];
      }
    }
  }

  class PlayerController {
    /** The CombatTarget part of the player: health and death. */
    const body: CombatTargets.CombatTarget
    const weaponManager: Weapons.WeaponManager
    const parryTime: real
    const deflectedProjectileDamageMultiplier: real

    var controlState: ControlState
    var attackState: AttackState
    var dodgeMovement: bool
    var attackMovement: bool
    var hitMovement: bool
    var chargingAttack: bool
    var chargeTime: real
    var attackIsPowerful: bool
    var lastBlockTime: real
    /** The targets registered in the current swing window. */
    var attackHits: seq<TargetId>
    /** Every call the player made on other objects, in order. */
    var events: seq<PlayerEvent>
    /** The targets GetHit was called on since `attackHits` was last cleared. */
    ghost var swingHits: seq<TargetId>

    /**
     * The registry has no duplicates, and within one swing window GetHit was
     * called at most once per target, each of them registered.
     */
    ghost predicate Valid()
      reads this, weaponManager
    {
      && parryTime == 0.2
      && deflectedProjectileDamageMultiplier == 2.0
      && Registry()
      && weaponManager.Valid()
    }

    /** The registry has no duplicates, and every target hit in this window is registered. */
    ghost predicate Registry()
      reads this
    {
      && NoDuplicates(attackHits)
      && NoDuplicates(swingHits)
      && (forall t :: t in swingHits ==> t in attackHits)
    }

    ghost function State(): Snapshot
      reads this
    {
      Snapshot(controlState, attackState, dodgeMovement, attackMovement, hitMovement,
               chargingAttack, chargeTime, attackIsPowerful, lastBlockTime, attackHits, events, swingHits)
    }

    /** Field initializers and Awake. */
    constructor (body: CombatTargets.CombatTarget, weaponManager: Weapons.WeaponManager)
      requires weaponManager.Valid()
      ensures Valid()
      ensures this.body == body && this.weaponManager == weaponManager
      ensures controlState == Locomotion && attackState == End
      ensures !dodgeMovement && !attackMovement && !hitMovement && !chargingAttack && !attackIsPowerful
      ensures chargeTime == 0.0 && lastBlockTime == 0.0
      ensures attackHits == [] && events == [] && swingHits == []
    {
      this.body := body;
      this.weaponManager := weaponManager;
      parryTime := 0.2;
      deflectedProjectileDamageMultiplier := 2.0;
      controlState := Locomotion;
      attackState := End;
      dodgeMovement, attackMovement, hitMovement := false, false, false;
      chargingAttack, attackIsPowerful := false, false;
      chargeTime, lastBlockTime := 0.0, 0.0;
      attackHits, events, swingHits := [], [], [];
    }

    /** Start: full health, in Locomotion. */
    method Start()
      requires Valid()
      modifies this, body
      ensures Valid()
      ensures body.currentHealth == body.maxHealth
      ensures body.maxHealth == old(body.maxHealth) && body.isDead == old(body.isDead)
      ensures body.dieCalls == old(body.dieCalls)
      ensures State() == old(State()).(controlState := Locomotion)
    {
      body.Start();
      controlState := Locomotion;
    }

    /** Arming for a block would throw: no weapon held and an empty primary slot. */
    ghost predicate ArmFails()
      reads this, weaponManager
    {
      weaponManager.weapon.None? && weaponManager.primaryWeapon.None?
    }

    /**
     * ToggleBlock: equips the primary weapon when none is held (which throws,
     * `fault`, when the slot is empty), then enters Block stamped with `now`,
     * or returns to Locomotion.
     */
    method ToggleBlock(blockOn: bool, now: real) returns (fault: bool)
      requires Valid()
      modifies this, weaponManager
      ensures Valid()
      ensures fault <==> old(ArmFails())
      ensures old(weaponManager.weapon).Some? ==> unchanged(weaponManager)
      ensures weaponManager.State() == Armed(old(weaponManager.State()))
      ensures fault ==> State() == old(State())
      ensures !fault ==>
                State() == old(State()).(controlState := if blockOn then Block else Locomotion,
                                         lastBlockTime := if blockOn then now else old(lastBlockTime))
    {
      if weaponManager.weapon.None? {
        fault := weaponManager.Equip(1);
        if fault {
          return;
        }
      }
      fault := false;
      if blockOn {
        controlState := Block;
        lastBlockTime := now;
      } else {
        controlState := Locomotion;
      }
    }

    /**
     * GetHit: ignored when dead or dodging. A hit that is not powerful while
     * blocking does no damage; inside the parry window (block started less
     * than `parryTime` ago) it parries an enemy hitter or deflects a
     * projectile. Any other hit interrupts, ends the block, deals `damage`,
     * unequips the weapon and puts the player in Hit.
     */
    method GetHit(hitter: Hitter, damage: real, isPowerful: bool, fx: Option<FxId>, now: real) returns (fault: bool)
      requires Valid()
      modifies this, body, weaponManager
      ensures Valid()
      ensures old(body.isDead) || old(controlState) == Dodge ==>
                !fault && unchanged(this, body, weaponManager)
      ensures !old(body.isDead) && old(controlState) == Block && !isPowerful ==>
                && !fault
                && unchanged(body, weaponManager)
                && State() == old(State()).(events := old(events) +
                     if old(lastBlockTime) + parryTime > now
                     then ParryReply(hitter, deflectedProjectileDamageMultiplier) else [])
      ensures !old(body.isDead) && old(controlState) != Dodge && (old(controlState) != Block || isPowerful) ==>
                && (fault <==> old(ArmFails()) || fx.None?)
                && (old(ArmFails()) ==>
                      && State() == old(State()).(attackMovement := false) && unchanged(body)
                      && weaponManager.State() == Armed(old(weaponManager.State())))
                && (!old(ArmFails()) ==>
                      && State() == old(State()).(attackMovement := false, controlState := Hit, hitMovement := true)
                      && weaponManager.State() == Weapons.Unequipped(Armed(old(weaponManager.State())))
                      && body.currentHealth == old(body.currentHealth) - damage
                      && body.maxHealth == old(body.maxHealth)
                      && body.isDead == (old(body.isDead) || body.currentHealth <= 0.0)
                      && body.dieCalls == old(body.dieCalls) + if body.currentHealth <= 0.0 then 1 else 0)
    {
      if body.isDead || controlState == Dodge {
        return false;
      }
      if controlState == Block && !isPowerful {
        BlockHit(hitter, now);
        return false;
      }
      fault := TakeHit(damage, fx, now);
    }

    /**
     * The blocked branch of GetHit: within the parry window the hitter is
     * parried (an enemy) or deflected (a projectile); otherwise, and for any
     * other hitter, the block only absorbs the hit.
     */
    method BlockHit(hitter: Hitter, now: real)
      requires Valid()
      modifies this
      ensures Valid()
      ensures State() == old(State()).(events := old(events) +
                if old(lastBlockTime) + parryTime > now
                then ParryReply(hitter, deflectedProjectileDamageMultiplier) else [])
    {
      if lastBlockTime + parryTime > now {
        events := events + ParryReply(hitter, deflectedProjectileDamageMultiplier);
      }
    }

    /**
     * The unblocked branch of GetHit: interrupt, end the block (equipping the
     * primary weapon first when none is held, which throws when that slot is
     * empty), take `damage`, unequip and enter Hit. Last, the hit effect is
     * instantiated, which throws when there is none; every change is made by
     * then.
     */
    method TakeHit(damage: real, fx: Option<FxId>, now: real) returns (fault: bool)
      requires Valid()
      modifies this, body, weaponManager
      ensures Valid()
      ensures fault <==> old(ArmFails()) || fx.None?
      ensures old(ArmFails()) ==>
                && State() == old(State()).(attackMovement := false) && unchanged(body)
                && weaponManager.State() == Armed(old(weaponManager.State()))
      ensures !old(ArmFails()) ==>
                && State() == old(State()).(attackMovement := false, controlState := Hit, hitMovement := true)
                && weaponManager.State() == Weapons.Unequipped(Armed(old(weaponManager.State())))
                && body.currentHealth == old(body.currentHealth) - damage
                && body.maxHealth == old(body.maxHealth)
                && body.isDead == (old(body.isDead) || body.currentHealth <= 0.0)
                && body.dieCalls == old(body.dieCalls) + if body.currentHealth <= 0.0 then 1 else 0
    {
      Interrupt();
      fault := ToggleBlock(false, now);
      if fault {
        return;
      }
      body.TakeDamage(damage);
      weaponManager.Unequip();
      controlState := Hit;
      hitMovement := true;
      if fx.None? {
        return true;
      }
      fault := false;
    }

    /** Interrupt: attack movement stops. */
    method Interrupt()
      requires Valid()
      modifies this
      ensures Valid()
      ensures State() == old(State()).(attackMovement := false)
    {
      attackMovement := false;
    }

    /**
     * FireMeleeAttack: every collider's CombatTarget not yet in `attackHits`
     * is registered and sent GetHit with the weapon's damage, the power flag
     * and the weapon's hit effect.
     */
    method FireMeleeAttack(colliders: seq<Option<TargetId>>) returns (fault: bool)
      requires Valid()
      modifies this`attackHits, this`events, this`swingHits
      ensures Valid()
      ensures MeleeOutcome(old(attackHits), old(events), old(swingHits), weaponManager.weapon, attackIsPowerful,
                           colliders, attackHits, events, swingHits, fault)
    {
      ghost var hits0, events0, swing0 := attackHits, events, swingHits;
      ghost var weapon := weaponManager.weapon;
      var i := 0;
      ghost var done: seq<TargetId> := [];
      while i < |colliders|
        invariant 0 <= i <= |colliders|
        invariant Registry()
        invariant weaponManager.weapon == weapon
        invariant attackHits == hits0 + done
        invariant done + NewTargets(attackHits, colliders[i..]) == NewTargets(hits0, colliders)
        invariant weapon.None? ==> done == [] && events == events0 && swingHits == swing0
        invariant weapon.Some? ==>
                    && swingHits == swing0 + done
                    && events == events0 + AsEvents(HitCallsFor(done, weapon.value.attackDamage,
                                                                attackIsPowerful, weapon.value.hitFX))
      {
        ScanStep(done, attackHits, colliders[i..], NewTargets(hits0, colliders));
        assert colliders[i..][1..] == colliders[i + 1..];
        var hit := colliders[i];
        if hit.Some? && hit.value !in attackHits {
          var tgt := hit.value;
          fault := RegisterHit(tgt);
          if fault {
            assert (done + [tgt])[..1] == [tgt];
            return;
          }
          HitEventsSnoc(done, tgt, weapon.value.attackDamage, attackIsPowerful, weapon.value.hitFX);
          done := done + [tgt];
        }
        i := i + 1;
      }
      assert done == NewTargets(hits0, colliders);
      fault := false;
    }

    /**
     * One new target of the melee scan: it is registered, then sent GetHit
     * with the weapon's damage, the power flag and the weapon's hit effect;
     * with no weapon the damage read throws (`fault`) after the registration.
     */
    method RegisterHit(tgt: TargetId) returns (fault: bool)
      requires Registry()
      requires tgt !in attackHits
      modifies this`attackHits, this`events, this`swingHits
      ensures Registry()
      ensures attackHits == old(attackHits) + [tgt]
      ensures fault <==> weaponManager.weapon.None?
      ensures fault ==> events == old(events) && swingHits == old(swingHits)
      ensures !fault ==>
                var w := weaponManager.weapon.value;
                && swingHits == old(swingHits) + [tgt]
                && events == old(events) + [GetHitCall(HitCall(tgt, w.attackDamage, attackIsPowerful, w.hitFX))]
    {
      attackHits := attackHits + [tgt];
      if weaponManager.weapon.None? {
        return true;
      }
      var w := weaponManager.weapon.value;
      swingHits := swingHits + [tgt];
      events := events + [GetHitCall(HitCall(tgt, w.attackDamage, attackIsPowerful, w.hitFX))];
      fault := false;
    }

    /** AttackMachineCallback(AttackState): Continue and End clear the registry; Swing keeps it. */
    method AttackMachineCallbackPhase(state: AttackState)
      requires Valid()
      modifies this
      ensures Valid()
      ensures State() == old(State()).(attackState := state,
                                       attackHits := if state == Swing then old(attackHits) else [],
                                       swingHits := if state == Swing then old(swingHits) else [])
    {
      attackState := state;
      if attackState != Swing {
        attackHits := [];
        swingHits := [];
      }
    }

    /** AttackMachineCallback(bool): the attack animation starting or stopping. */
    method AttackMachineCallbackStartStop(startStop: bool)
      requires Valid()
      modifies this
      ensures Valid()
      ensures State() == old(State()).(controlState := if startStop then Attacking else Locomotion,
                                       attackMovement := startStop)
    {
      if startStop {
        controlState := Attacking;
        attackMovement := true;
      } else {
        controlState := Locomotion;
        attackMovement := false;
      }
    }

    /** DodgeEvent: "start" enters Dodge with dodge movement, "end" leaves it for Locomotion. */
    method DodgeEvent(message: string)
      requires Valid()
      modifies this
      ensures Valid()
      ensures message == "start" ==> State() == old(State()).(controlState := Dodge, dodgeMovement := true)
      ensures message == "end" ==> State() == old(State()).(controlState := Locomotion, dodgeMovement := false)
      ensures message != "start" && message != "end" ==> State() == old(State())
    {
      if message == "start" {
        controlState := Dodge;
        dodgeMovement := true;
      }
      if message == "end" {
        dodgeMovement := false;
        controlState := Locomotion;
      }
    }

    /** HitEvent: "start" enters Hit; "end" returns to Locomotion, but only from Hit. */
    method HitEvent(message: string)
      requires Valid()
      modifies this
      ensures Valid()
      ensures message == "start" ==> State() == old(State()).(controlState := Hit)
      ensures message == "end" && old(controlState) == Hit ==>
                State() == old(State()).(controlState := Locomotion, hitMovement := false)
      ensures message == "end" && old(controlState) != Hit ==> State() == old(State())
      ensures message != "start" && message != "end" ==> State() == old(State())
    {
      if message == "start" {
        controlState := Hit;
      }
      if message == "end" && controlState == Hit {
        hitMovement := false;
        controlState := Locomotion;
      }
    }

    /**
     * AttackEvent: "swing" plays the weapon's swing sound (which throws,
     * `fault`, with no weapon); a message containing "collide" fires the
     * collider its side names, with the power flag the attack was started with.
     */
    method AttackEvent(message: string, collision: WeaponCollision) returns (fault: bool)
      requires Valid()
      modifies this
      ensures Valid()
      ensures message == "swing" && weaponManager.weapon.None? ==> fault && State() == old(State())
      ensures !(message == "swing" && weaponManager.weapon.None?) && Contains(message, "collide") ==>
                && MeleeOutcome(old(attackHits), old(events), old(swingHits), weaponManager.weapon,
                                old(attackIsPowerful), CollidersAt(collision, CollideSide(message)),
                                attackHits, events, swingHits, fault)
                && State() == old(State()).(attackHits := attackHits, events := events, swingHits := swingHits)
      ensures !(message == "swing" && weaponManager.weapon.None?) && !Contains(message, "collide") ==>
                !fault && State() == old(State())
    {
      if message == "swing" && weaponManager.weapon.None? {
        return true;
      }
      // "projectile" calls FireRangedAttack, which does nothing
      fault := false;
      if Contains(message, "collide") {
        fault := FireMeleeAttack(CollidersAt(collision, CollideSide(message)));
      }
    }

    /** StartCharging: a charge begins from zero. */
    method StartCharging()
      requires Valid()
      modifies this
      ensures Valid()
      ensures State() == old(State()).(chargingAttack := true, chargeTime := 0.0)
    {
      chargingAttack := true;
      chargeTime := 0.0;
    }

    /** HandleCharging: the held button adds the frame's time to the charge. */
    method HandleCharging(deltaTime: real)
      requires Valid()
      modifies this
      ensures Valid()
      ensures State() == old(State()).(chargeTime := old(chargeTime) + deltaTime)
    {
      chargeTime := chargeTime + deltaTime;
    }

    /** CancelCharging: the charge is dropped. */
    method CancelCharging()
      requires Valid()
      modifies this
      ensures Valid()
      ensures State() == old(State()).(chargingAttack := false, chargeTime := 0.0)
    {
      chargingAttack := false;
      chargeTime := 0.0;
    }

    /**
     * Attack: `farLockOn` is the lock-on ray casts' result, true when they
     * found a target farther than the gap-close reach. A melee weapon then
     * closes the gap, whose coroutine stops the attack movement before its
     * first yield. The attack is powerful exactly when the weapon charges and
     * the accumulated charge exceeds the weapon's charge time; the charge
     * ends. With no weapon the read of its type or fire type throws (`fault`).
     */
    method Attack(farLockOn: bool)
      returns (fault: bool)
      requires Valid()
      modifies this
      ensures Valid()
      ensures fault <==> weaponManager.weapon.None?
      ensures fault ==> State() == old(State())
      ensures !fault ==>
                var w := weaponManager.weapon.value;
                State() == old(State()).(attackIsPowerful := w.fireType == Charge && w.chargeTime < old(chargeTime),
                                         chargingAttack := false,
                                         attackMovement := old(attackMovement) && !(farLockOn && w.attackType == MeleeAttack))
    {
      if weaponManager.weapon.None? {
        return true;
      }
      var w := weaponManager.weapon.value;
      if farLockOn && w.attackType == MeleeAttack {
        // HandleMovingAsync, up to its first yield
        attackMovement := false;
      }
      if w.fireType == Charge && w.chargeTime < chargeTime {
        attackIsPowerful := true;
      } else {
        attackIsPowerful := false;
      }
      // AnimateAttack
      chargingAttack := false;
      fault := false;
    }

    /**
     * HandleAttackControl: outside Swing, jump cancels into a dodge. An attack
     * press (or, for a repeating weapon, a held button) starts the next attack
     * only in the Continue phase and is dropped otherwise. Outside Swing, the
     * block key enters Block. Reading the weapon's fire type with no weapon
     * throws (`fault`). `farLockOn` is passed on to Attack.
     */
    method HandleAttackControl(input: AttackInput, farLockOn: bool, now: real) returns (fault: bool)
      requires Valid()
      modifies this, weaponManager
      ensures Valid()
      ensures unchanged(weaponManager)
      ensures input.jumpDown && old(attackState) != Swing ==>
                !fault && State() == old(State()).(attackMovement := false, controlState := Dodge)
      ensures !(input.jumpDown && old(attackState) != Swing) && old(weaponManager.weapon).None? ==>
                fault && State() == old(State())
      ensures !(input.jumpDown && old(attackState) != Swing) && old(weaponManager.weapon).Some? ==>
                var w := old(weaponManager.weapon).value;
                var combo := (w.fireType == Repeat && input.comboHeld) || input.comboDown;
                && !fault
                && (combo && old(attackState) == Continue ==>
                      State() == old(State()).(attackIsPowerful := w.fireType == Charge && w.chargeTime < old(chargeTime),
                                               chargingAttack := false,
                                               attackMovement := old(attackMovement) && !(farLockOn && w.attackType == MeleeAttack)))
                && (combo && old(attackState) != Continue ==> State() == old(State()))
                && (!combo && input.blockHeld && old(attackState) != Swing ==>
                      State() == old(State()).(controlState := Block, lastBlockTime := now))
                && (!combo && !(input.blockHeld && old(attackState) != Swing) ==> State() == old(State()))
    {
      if input.jumpDown && attackState != Swing {
        // AttackEvent("end") matches none of the event names it handles
        // Dodge
        attackMovement := false;
        controlState := Dodge;
        return false;
      }
      if weaponManager.weapon.None? {
        return true;
      }
      var w := weaponManager.weapon.value;
      if (w.fireType == Repeat && input.comboHeld) || input.comboDown {
        if attackState == Continue {
          fault := Attack(farLockOn);
        } else {
          // Swing: the press is dropped
          fault := false;
        }
        return;
      }
      fault := false;
      if input.blockHeld {
        if attackState != Swing {
          fault := ToggleBlock(true, now);
        }
      }
    }
  }
}
