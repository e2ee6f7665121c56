# Combat core of a Unity hack-and-slash prototype, in Dafny

This project models the gameplay bookkeeping of the prototype's combat code and proves properties of it:

- **Weighted attack table** (`AttackSet`): sorted by weight; a seed picks the first attack whose weight is at or above it, falling back to the last one.
- **Enemy attack scheduler** (`EnemyManager`):
  - two FIFO queues, melee and ranged;
  - every tick each queue may let its head attempt one attack;
  - each queue then waits out a one-second cooldown.
- **Combat targets and health**:
  - `CombatTarget` has unclamped health and calls `Die` every time health ends at or below zero.
  - The two `Health` components clamp health at zero and ignore damage once dead.
- **Player combat state machine** (`PlayerController`):
  - incoming hits are dodged, blocked, parried, deflected or taken;
  - a swing hits each target at most once per swing window;
  - animation events drive the control and attack states;
  - the power flag is set by charging, and the combo is gated by the attack phase.
- **Weapon manager**: start, equip and unequip of the two weapon slots and of the objects spawned in the hands.
- **Shared character controller** (`DudeController`): the grounded setter and the dodge event.
- **Projectiles**: the faction rule for hits, and destruction on first contact.
- **Animation library**: building the name-to-clip dictionary.

Modelling conventions:

- Each component whose fields change in place is a Dafny `class`.
  - Its methods carry `modifies` clauses and state the whole new state: every field is either given its new value or stated unchanged.
  - `PlayerController` states it as an update of `State()`, a snapshot of all its fields, so `State() == old(State()).(f := v)` says that only `f` changed.
  - `WeaponManager` does the same with a `Slots` snapshot. The functions `Unequipped` and `Equipped` give the slots after `Unequip` and `Equip`, and the player's methods that equip or unequip state the weapon manager's new slots through them.
  - A `Valid()` predicate holds the invariant each method keeps.
- Pure logic is in functions, and the properties relating several calls are lemmas.
- The two branches of the player's `GetHit` are the methods `BlockHit` and `TakeHit`, and the per-target step of `FireMeleeAttack` is `RegisterHit`; the source writes these inline.
- `float` values are `real`: time, health, damage, weights and charge times.
- The game clock (`Time.time`, `Time.deltaTime`) is a parameter.
- Engine calls the code makes on other objects are recorded as logs:
  - `AttemptAttack` calls are `EnemyManager.attempts`;
  - `GetHit` calls are the `hits` logs of the projectiles;
  - `GetHit`, `GetParried` and `Deflect` calls are `PlayerController.events`;
  - `Destroy` calls are the `destroyed` flags and the `destroyedObjects` set;
  - `DudeController.Die` calls are the `parentDieCalls` counter.
- Physics queries are inputs:
  - the colliders an overlap sphere returns, each with its `CombatTarget` or none;
  - the tag of the target a projectile touches;
  - whether the lock-on ray casts in `Attack` found a target farther than the gap-close reach (`farLockOn`).
- The exceptions the code can throw are modelled as a `fault` result, and the state is left as it was at the throw. Examples:
  - a null reference: reading `weaponManager.weapon` when no weapon is equipped, an equip whose slot is empty, a projectile touched before `Fire`, a player hit whose effect is null (the last step of the damage branch instantiates it);
  - an index out of range: a `Start` whose arsenal has fewer than three weapons.
- An empty attack table is an `Err` result.

## Model

| member | source | states |
|---|---|---|
| AttackSets.InsertByWeight | Assets/Scripts/Combat/AttackSet.cs:18-21 | inserting into a list sorted by weight keeps it sorted and adds one item; every item but `x` weighs at least the old head |
| AttackSets.InsertByWeightPermutes | Assets/Scripts/Combat/AttackSet.cs:18-21 | insertion adds exactly the inserted item to the multiset of items |
| AttackSets.SortByWeight | Assets/Scripts/Combat/AttackSet.cs:18-21 | the result is sorted by non-decreasing weight and is a permutation of the input |
| AttackSets.AttackSet.SortAttacks | Assets/Scripts/Combat/AttackSet.cs:18-21 | after sorting, the table is sorted by weight and holds the same items, as a multiset, as before |
| AttackSets.FirstAtOrAbove | Assets/Scripts/Combat/AttackSet.cs:24-28 | the loop's early return: every item before the index is below the seed, and the item at the index, if any, is at or above it |
| AttackSets.SelectedIndex | Assets/Scripts/Combat/AttackSet.cs:23-31 | the index read is in range: the first item at or above the seed when one exists, else the last index |
| AttackSets.SelectedIndexMonotone | Assets/Scripts/Combat/AttackSet.cs:23-31 | a larger seed never selects an earlier item |
| AttackSets.AttackSet.GetByRandomSeed | Assets/Scripts/Combat/AttackSet.cs:23-31 | an error exactly when the table is empty; otherwise the attack of some item, namely the first at or above the seed, or the last item when all are below it |
| EnemyScheduler.LastGrantOf | Assets/Scripts/EnemyManager.cs:40-46 | the most recent grant of a queue belongs to that queue; none means that queue never granted |
| EnemyScheduler.AppendGrant | Assets/Scripts/EnemyManager.cs:40-46 | a grant more than a cooldown after every earlier grant of its queue keeps grants spaced and becomes its queue's last grant |
| EnemyScheduler.OrderKeepsInvariant | Assets/Scripts/EnemyManager.cs:40-46 | dequeuing the head at a time past the queue's next attack time keeps the queue duplicate-free and makes the next attack time the grant time plus the cooldown |
| EnemyScheduler.OtherGrantKeepsInvariant | Assets/Scripts/EnemyManager.cs:35-38 | a grant by one queue leaves the other queue's invariant intact |
| EnemyScheduler.OrderKeepsBoth | Assets/Scripts/EnemyManager.cs:40-46 | one order keeps the invariants of both queues and the spacing of all grants |
| EnemyScheduler.EnemyManager.constructor | Assets/Scripts/EnemyManager.cs:26-29 | both queues empty, next attack time 0, no last attacker, no grant made |
| EnemyScheduler.EnemyManager.EnterAttackQueue | Assets/Scripts/EnemyManager.cs:55-61 | returns true exactly when the enemy was not queued, and then appends it at the back; the other queue and the grants are unchanged |
| EnemyScheduler.EnemyManager.OrderAttack | Assets/Scripts/EnemyManager.cs:40-46 | the head is dequeued and granted one attempt at `now`, the next attack time is `now` plus the cooldown, the head is the last attacker; the invariant holds that no two grants of a queue are within one cooldown |
| EnemyScheduler.EnemyManager.CheckForAttack | Assets/Scripts/EnemyManager.cs:48-53 | orders exactly when the queue is non-empty and its next attack time is strictly before `now`; otherwise nothing changes |
| EnemyScheduler.EnemyManager.Update | Assets/Scripts/EnemyManager.cs:35-38 | one tick grants at most one melee attempt and then at most one ranged attempt, in that order, each under its own queue's guard |
| CombatTargets.CombatTarget.constructor | Assets/Scripts/Combat/CombatTarget.cs:9-11 | serialized defaults: the given maximum, not dead |
| CombatTargets.CombatTarget.Start | Assets/Scripts/Combat/CombatTarget.cs:13 | current health becomes the maximum; the dead flag is untouched |
| CombatTargets.CombatTarget.GetHit | Assets/Scripts/Combat/CombatTarget.cs:15-17 | the base reaction to a hit changes nothing |
| CombatTargets.CombatTarget.Die | Assets/Scripts/Combat/CombatTarget.cs:19-21 | the target is dead; health is untouched |
| CombatTargets.CombatTarget.TakeDamage | Assets/Scripts/Combat/CombatTarget.cs:23-28 | health drops by exactly the damage (no clamp, dead or not); Die runs once per call that ends at or below zero; dead exactly when it was or health is now at or below zero |
| CombatHealth.Max | Assets/Scripts/Combat/Health.cs:17 | the larger of two values |
| CombatHealth.Health.constructor | Assets/Scripts/Combat/Health.cs:7-12 | full health of 100, alive |
| CombatHealth.Health.TakeDamage | Assets/Scripts/Combat/Health.cs:14-22 | ignored once dead; otherwise health becomes max(0, health - damage) and the component is dead exactly when health reaches 0; health never goes below 0, and non-negative damage never raises it or takes it above 100 |
| CombatHealth.Health.Die | Assets/Scripts/Combat/Health.cs:24-26 | dead, health unchanged, invariant kept |
| CharacterHealth.Health.constructor | Assets/Scripts/Character/Health.cs:8-14 | full health of 100, alive, the parent not yet told to die |
| CharacterHealth.Health.TakeDamage | Assets/Scripts/Character/Health.cs:16-24 | as the combat Health, and the parent controller's Die is called exactly once, on the hit that kills |
| CharacterHealth.Health.Die | Assets/Scripts/Character/Health.cs:26-29 | dead, and the parent controller's Die is called on every call |
| Weapons.HandPrefabCount | Assets/Scripts/Combat/WeaponManager.cs:51-57 | the number of hand objects a weapon spawns: 0 exactly when it has no prefab, 2 exactly when it has both |
| Weapons.WeaponManager.constructor | Assets/Scripts/Combat/WeaponManager.cs:28-32 | no weapon in hand or in either slot, no spawned object |
| Weapons.WeaponManager.Start | Assets/Scripts/Combat/WeaponManager.cs:34-41 | slot indices 0 and 2; the primary slot is set when the arsenal has a weapon; the secondary when it has three; the read of index 2 faults exactly when it has fewer than three |
| Weapons.WeaponManager.Unequip | Assets/Scripts/Combat/WeaponManager.cs:62-69 | the new slots are `Unequipped` of the old: every listed hand object is destroyed, no weapon is in hand, the animator weapon id is 0; the list itself, both slots, the arsenal and the id counter are kept; the list invariant is kept |
| Weapons.WeaponManager.SpawnHandObject | Assets/Scripts/Combat/WeaponManager.cs:52 | one fresh object id appended to the list, the id counter advanced by one; no other field changes |
| Weapons.WeaponManager.Equip | Assets/Scripts/Combat/WeaponManager.cs:43-60 | the new slots are `Equipped` of the old: unequips first; id 1 selects the primary slot, any other id the secondary; an empty slot faults after the unequip; otherwise the left then right hand objects are spawned with fresh ids, the id counter advances by their number and the animator id is the weapon's; slots and arsenal kept |
| Weapons.WeaponManager.SpawnHandObjects | Assets/Scripts/Combat/WeaponManager.cs:51-57 | the hand objects spawned are exactly `HandPrefabCount` consecutive fresh ids appended to the list; no other field changes |
| Weapons.EquipKeeps | Assets/Scripts/Combat/WeaponManager.cs:43-69 | equipping and unequipping keep the list invariant, never remove an object from the list or from the destroyed set, keep both slots and the arsenal, and leave no weapon in hand exactly when the chosen slot is empty |
| Dude.DudeController.constructor | Assets/Scripts/Library/DudeController.cs:15-31 | not grounded, no dodge movement, locomotion |
| Dude.DudeController.SetIsGrounded | Assets/Scripts/Library/DudeController.cs:20-27 | the flag and the animator parameter take the value; the movement state resets to locomotion exactly on landing (false to true) |
| Dude.DudeController.DodgeEvent | Assets/Scripts/Library/DudeController.cs:50-62 | any event enters Dodge; "start" starts the dodge movement; "end" stops it and returns to locomotion |
| EnemyProjectiles.HitsTarget | Assets/Scripts/Combat/EnemyProjectile.cs:29-33 | the player is always hit; an enemy only by an attack that can hit allies; any other tag never |
| EnemyProjectiles.EnemyProjectile.constructor | Assets/Scripts/Combat/EnemyProjectile.cs:12 | no attack yet, not destroyed, no hit made |
| EnemyProjectiles.EnemyProjectile.Fire | Assets/Scripts/Combat/EnemyProjectile.cs:38-39 | the projectile carries the given attack |
| EnemyProjectiles.EnemyProjectile.OnTriggerEnter | Assets/Scripts/Combat/EnemyProjectile.cs:21-36 | a contact without a target destroys it; with a target the stored attack is forwarded unchanged when the faction rule allows, and the projectile is destroyed either way; an unfired projectile faults; the invariant is at most one hit, and a projectile that hit is destroyed |
| PlayerProjectiles.PlayerProjectile.constructor | Assets/Scripts/Combat/PlayerProjectile.cs:8-10 | zero damage, not powerful, no effect, not destroyed |
| PlayerProjectiles.PlayerProjectile.Fire | Assets/Scripts/Combat/PlayerProjectile.cs:25-28 | damage, effect and power flag are those given |
| PlayerProjectiles.PlayerProjectile.OnTriggerEnter | Assets/Scripts/Combat/PlayerProjectile.cs:12-23 | a contact without a target destroys it; an "Enemy" is hit with the stored payload and the projectile destroyed; any other target is passed through untouched; at most one hit ever |
| Animations.FirstDuplicate | Assets/Scripts/Library/AnimationLibrary.cs:20-22 | the number of mappings added before an add throws: the prefix has distinct names, the next name repeats one of them, and it is the whole list exactly when all names are distinct |
| Animations.FirstDuplicateUnique | Assets/Scripts/Library/AnimationLibrary.cs:20-22 | the stopping point is unique: any index with a distinct prefix and a repeat at it is FirstDuplicate |
| Animations.LookupOfKeys | Assets/Scripts/Library/AnimationLibrary.cs:18-23 | the dictionary's keys are the mappings' names |
| Animations.LookupOfSize | Assets/Scripts/Library/AnimationLibrary.cs:18-23 | with distinct names, one entry per mapping |
| Animations.LookupOfValues | Assets/Scripts/Library/AnimationLibrary.cs:18-23 | with distinct names, every name maps to its own clip |
| Animations.AnimationLibrary.constructor | Assets/Scripts/Library/AnimationLibrary.cs:15-16 | the given mappings, no dictionary |
| Animations.AnimationLibrary.BuildLookup | Assets/Scripts/Library/AnimationLibrary.cs:18-23 | succeeds exactly when names are distinct, and then the dictionary maps every name to its clip with one entry per mapping; on a repeat the field holds the dictionary built up to it |
| PlayerEvents.IndexOf | Assets/Scripts/Player/PlayerController.cs:589 | the first position of a character, or the length when absent |
| PlayerEvents.ContainsAtOffset | Assets/Scripts/Player/PlayerController.cs:588 | `message.Contains(t)` holds exactly when `t` occurs at some offset |
| PlayerEvents.SecondField | Assets/Scripts/Player/PlayerController.cs:589-591 | the split has a second part exactly when the message has a dot, and that part holds no dot |
| PlayerEvents.FieldEnd | Assets/Scripts/Player/PlayerController.cs:589 | the field after the first dot ends at the next dot or at the end |
| PlayerEvents.SecondFieldOf | Assets/Scripts/Player/PlayerController.cs:589-592 | the second part of `head.field` or `head.field.more` is `field` |
| PlayerEvents.CollideSideOfField | Assets/Scripts/Player/PlayerController.cs:588-606 | `head.field...` fires the left collider for "left", the right for "right", the front for anything else |
| PlayerEvents.CollideSideNoDot | Assets/Scripts/Player/PlayerController.cs:603-605 | a message without a dot fires the front collider |
| PlayerEvents.CollideLeft | Assets/Scripts/Player/PlayerController.cs:593-595 | "collide.left" fires the left collider |
| PlayerEvents.CollideRight | Assets/Scripts/Player/PlayerController.cs:596-598 | "collide.right" fires the right collider |
| PlayerEvents.NewTargets | Assets/Scripts/Player/PlayerController.cs:429-437 | a scan adds each unseen target once, so the registry stays duplicate-free |
| PlayerEvents.NewTargetsMembers | Assets/Scripts/Player/PlayerController.cs:431-434 | a target is added exactly when some collider has it and it was not registered before |
| Player.ScanStep | Assets/Scripts/Player/PlayerController.cs:429-437 | one collider of the scan either registers a new target or is skipped, preserving what the rest of the scan adds |
| Player.HitEventsSnoc | Assets/Scripts/Player/PlayerController.cs:434 | hitting one more target appends exactly its GetHit call to the log |
| Player.PlayerController.constructor | Assets/Scripts/Player/PlayerController.cs:85-93 | attack phase End, empty hit registry and call log, locomotion, no movement flags, no charge |
| Player.PlayerController.Start | Assets/Scripts/Player/PlayerController.cs:95-103 | full health through the CombatTarget part, locomotion; the dead flag, maximum and Die count of the target kept; every other player field unchanged |
| Player.PlayerController.ToggleBlock | Assets/Scripts/Player/PlayerController.cs:512-523 | with no weapon the primary is equipped first (the weapon manager's new slots are `Equipped(old, 1)`), which faults exactly when the primary slot is empty; a weapon already in hand leaves the weapon manager unchanged; blocking on enters Block stamped with `now`, off returns to locomotion; a fault changes no player field; no other player field changes |
| Player.PlayerController.GetHit | Assets/Scripts/Player/PlayerController.cs:444-495 | ignored when dead or dodging; a hit that is not powerful while blocking does no damage, and within the parry window parries an enemy or deflects a projectile with multiplier 2; any other hit ends the block, deals exactly the damage, unequips and enters Hit, and faults when the re-equip throws or the hit effect is null; each branch states every player field and the weapon manager's new slots (the block branch keeps `lastBlockTime`), and the damage branch keeps the maximum health and counts Die |
| Player.PlayerController.BlockHit | Assets/Scripts/Player/PlayerController.cs:450-471 | only the call log changes: within the parry window (the block started less than `parryTime` before `now`) an enemy hitter is parried and a projectile deflected with multiplier 2, any other hitter gets no call; outside the window nothing is logged |
| Player.PlayerController.TakeHit | Assets/Scripts/Player/PlayerController.cs:473-486 | attack movement stops; with no weapon and an empty primary slot the re-equip faults, the weapon manager holds what that failed equip left and nothing else changes; otherwise Hit with hit movement, health drops by exactly the damage with the maximum kept, Die runs when health ends at or below zero, and the weapon manager's slots are `Unequipped` of the re-armed ones; a null hit effect faults after all of this; every other player field unchanged |
| Player.PlayerController.Interrupt | Assets/Scripts/Player/PlayerController.cs:502-510 | only attack movement changes, to off |
| Player.PlayerController.RegisterHit | Assets/Scripts/Player/PlayerController.cs:432-434 | the target is appended to the registry; with a weapon it is sent one GetHit with the weapon's damage, the power flag and the weapon's effect, and joins the swing window; without one the damage read faults after the registration; the registry invariant is kept |
| Player.PlayerController.FireMeleeAttack | Assets/Scripts/Player/PlayerController.cs:426-438 | every collider target not yet registered is registered once and sent one GetHit with the weapon's damage, the power flag and the weapon's effect; the registry stays duplicate-free and no target is hit twice in a swing window; without a weapon the first new target is registered and the damage read faults; it may change only the registry, the call log and the swing window; the power flag sent is the one when it was called |
| Player.PlayerController.AttackMachineCallbackPhase | Assets/Scripts/Player/PlayerController.cs:546-552 | the attack phase is the given one; Continue and End clear the registry and open a new swing window; Swing keeps it; Swing keeps the swing window too; no other field changes |
| Player.PlayerController.AttackMachineCallbackStartStop | Assets/Scripts/Player/PlayerController.cs:554-563 | start enters Attack with attack movement; stop returns to locomotion without it; no other field changes |
| Player.PlayerController.DodgeEvent | Assets/Scripts/Player/PlayerController.cs:565-576 | "start" enters Dodge with dodge movement; "end" returns to locomotion without it; other events change nothing; no other field changes |
| Player.PlayerController.HitEvent | Assets/Scripts/Player/PlayerController.cs:609-618 | "start" enters Hit; "end" returns to locomotion and stops hit movement only from Hit; no other field changes |
| Player.PlayerController.AttackEvent | Assets/Scripts/Player/PlayerController.cs:578-607 | "swing" faults with no weapon; a message containing "collide" fires exactly the melee scan of the collider its side names; anything else changes nothing; the scan uses the power flag the attack was started with; no other field changes |
| Player.PlayerController.StartCharging | Assets/Scripts/Player/PlayerController.cs:304-309 | charging from zero; no other field changes |
| Player.PlayerController.CancelCharging | Assets/Scripts/Player/PlayerController.cs:311-315 | not charging, charge zero; no other field changes |
| Player.PlayerController.HandleCharging | Assets/Scripts/Player/PlayerController.cs:317-318 | the charge grows by the frame time; no other field changes |
| Player.PlayerController.Attack | Assets/Scripts/Player/PlayerController.cs:323-371 | the attack is powerful exactly when the weapon charges and the charge exceeds the weapon's charge time; charging stops; a melee weapon locked on to a target beyond the gap-close reach stops the attack movement; with no weapon the read faults; a fault changes nothing; no other field changes |
| Player.PlayerController.HandleAttackControl | Assets/Scripts/Player/PlayerController.cs:179-203 | outside Swing, jump cancels into Dodge; a combo press starts the next attack (with `Attack`'s charge and gap-close effects) only in Continue and is dropped in Swing; outside Swing the block key enters Block; no weapon faults; every branch states the whole new state, and the weapon manager is unchanged |

## Left out

- Geometry and motion are not modelled, because they are float vectors handled by the engine:
  - turning, the lock-on ray casts and the gap-close movement in `Attack`; of the gap close only its first step, which stops the attack movement, is modelled;
  - gravity and `MakeMove`;
  - the hit direction in `GetHit`;
  - projectile velocity in `Fire`.
- Coroutines, the animator, audio and spawned effects are left out; `Interrupt` keeps only its `attackMovement := false`.
- Projectile lifetime is not modelled.
  - `Fire` passes `Time.time + lifeTime` to `Destroy` as a delay, so the lifetime grows with the game clock.
  - `lifeTime` is 20 (`Projectile.cs:14`, `EnemyProjectile.cs:15`), but the value passed is `Time.time + 20`, not 20 seconds.
- `Deflect` is recorded as a `DeflectCall` event only, because its body is not in `EnemyProjectile.cs`.
- The attack record with `canHitAllies`, `damage` and `projectileSpeed` used by `EnemyProjectile` is declared in a file that is not part of this model.
  - `Combat/Attack.cs` declares different fields.
  - The model's `Attack` carries the fields the projectile reads.
- `EnterAttackQueue` takes the queue type as a parameter. `EnemyManager.cs:32` passes `enemy.GetType()` to `AddToQueue(EnemyController, EnemyType)`, so it is an `EnemyType`-returning member of `EnemyController`, and `EnemyController` is not part of this model.
- `EnemyManager.cs` has no attempt window, no `GiveUpAttack` and no cooldown reset when an attack completes, so the model has none either.
- The player's input polling is left out: `Update`, `HandleGroundedControl`, `HandleBlockControl` and `HandleAttackButtons`.
  - Only `HandleAttackControl` is modelled, with its input as a parameter.
  - The `print` in the combo branch is dropped.
- `AttackSets.AttackSet.SortAttacks`: the comparator never returns 0, so it is not a consistent order on equal weights.
  - The model promises sorted-and-permutation only; which of two equal-weight items comes first is not modelled.
- `AttackSets.AttackSet.GetByRandomSeed`: a NaN seed is not modelled, because reals have no NaN.
- `AttackSets.SelectedIndexMonotone` is stated for any list, sorted or not.
- Unity's deferred `Destroy` is not modelled. A projectile marked destroyed receives no further trigger contacts, although in the engine a second contact within the same physics step is possible.
- `PlayerController` extends `CombatTarget` in the source; here it holds one (`body`), and its own `Die` override is the target's `Die` minus the animator call.
- `CharacterHealth.Health.Die`: `DudeController.cs` has no `Die`, so the parent call is a counter.
  - `Character/Health.cs:28` calls `parentController.Die()` without a null check; the null dereference when `GetComponentInParent` returned null is not modelled.
- `Player.PlayerController.GetHit`: a hitter carrying both an enemy controller and a projectile is treated as the enemy, which the source checks first. The hitter's `transform` read on a null hitter is not modelled.
- `EnemyProjectiles.EnemyProjectile.OnTriggerEnter`: the target's `GetHit` is logged, not run. When that call throws (the player's `GetHit` with a null effect), the source never reaches `Destroy(gameObject)` (`EnemyProjectile.cs:32-35`); the model still marks the projectile destroyed.
- Targets are identified by an id. A collider without a `CombatTarget` is `None`.
