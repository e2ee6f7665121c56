/**
 * The enemy attack scheduler: two FIFO queues (melee and ranged) of enemies
 * waiting for permission to attack; each tick a queue grants its head one
 * attack once the queue's cooldown has passed.
 */
module EnemyScheduler {
  import opened Wrappers
  import opened CombatData

  type EnemyId = nat

  datatype EnemyType = Melee | Ranged

  /** The scheduler's per-class queue, a value type updated in place. */
  datatype EnemyQueue = EnemyQueue(
    enemies: seq<EnemyId>,
    queueType: EnemyType,
    nextAttackTime: real,
    lastAttackedEnemy: Option<EnemyId>)

  /** One call `enemy.AttemptAttack()`, made by the queue `queueType` at `time`. */
  datatype Grant = Grant(enemy: EnemyId, queueType: EnemyType, time: real)

  /** Two grants from the same queue are always more than `cooldown` apart. */
  ghost predicate GrantsSpaced(gs: seq<Grant>, cooldown: real) {
    forall i, j :: 0 <= i < j < |gs| && gs[i].queueType == gs[j].queueType ==>
      gs[i].time + cooldown < gs[j].time
  }

  /** The most recent grant made by queue `t`. */
  ghost function LastGrantOf(gs: seq<Grant>, t: EnemyType): (r: Option<Grant>)
    ensures r.Some? ==> r.value in gs && r.value.queueType == t
    ensures r.None? ==> forall i :: 0 <= i < |gs| ==> gs[i].queueType != t
  {
    if gs == [] then None
    else if gs[|gs| - 1].queueType == t then Some(gs[|gs| - 1])
    else LastGrantOf(gs[..|gs| - 1], t)
  }

  /**
   * What the scheduler keeps true of queue `q` of class `t`, given the grants
   * `gs` made so far: no duplicates, and the next attack time and last
   * attacker are those of the queue's most recent grant.
   */
  ghost predicate QueueInvariant(q: EnemyQueue, t: EnemyType, gs: seq<Grant>, cooldown: real) {
    && q.queueType == t
    && NoDuplicates(q.enemies)
    && (forall i :: 0 <= i < |gs| && gs[i].queueType == t ==> gs[i].time + cooldown <= q.nextAttackTime)
    && match LastGrantOf(gs, t)
       case None => q.nextAttackTime == 0.0 && q.lastAttackedEnemy == None
       case Some(g) => q.nextAttackTime == g.time + cooldown && q.lastAttackedEnemy == Some(g.enemy)
  }

  /** Ordering an attack from a queue keeps that queue's invariant. */
  lemma {:induction false} OrderKeepsInvariant(q: EnemyQueue, t: EnemyType, gs: seq<Grant>, cooldown: real, now: real)
    requires QueueInvariant(q, t, gs, cooldown)
    requires GrantsSpaced(gs, cooldown)
    requires cooldown >= 0.0
    requires |q.enemies| > 0 && q.nextAttackTime < now
    ensures var g := Grant(q.enemies[0], t, now);
      && QueueInvariant(EnemyQueue(q.enemies[1..], t, now + cooldown, Some(q.enemies[0])), t, gs + [g], cooldown)
      && GrantsSpaced(gs + [g], cooldown)
  {
    var g := Grant(q.enemies[0], t, now);
    AppendGrant(gs, g, cooldown, t);
    var q' := EnemyQueue(q.enemies[1..], t, now + cooldown, Some(q.enemies[0]));
    assert NoDuplicates(q'.enemies) by {
      forall i, j | 0 <= i < j < |q'.enemies| ensures q'.enemies[i] != q'.enemies[j] {
        assert q'.enemies[i] == q.enemies[i + 1] && q'.enemies[j] == q.enemies[j + 1];
      }
    }
    forall i | 0 <= i < |gs + [g]| && (gs + [g])[i].queueType == t
      ensures (gs + [g])[i].time + cooldown <= now + cooldown
    {
      if i < |gs| { assert (gs + [g])[i] == gs[i]; }
    }
  }

  /** A grant from the other queue leaves a queue's invariant intact. */
  lemma {:induction false} OtherGrantKeepsInvariant(q: EnemyQueue, t: EnemyType, gs: seq<Grant>, g: Grant, cooldown: real)
    requires QueueInvariant(q, t, gs, cooldown)
    requires GrantsSpaced(gs, cooldown)
    requires g.queueType != t
    requires forall i :: 0 <= i < |gs| && gs[i].queueType == g.queueType ==> gs[i].time + cooldown < g.time
    ensures QueueInvariant(q, t, gs + [g], cooldown)
  {
    AppendGrant(gs, g, cooldown, t);
    forall i | 0 <= i < |gs + [g]| && (gs + [g])[i].queueType == t
      ensures (gs + [g])[i].time + cooldown <= q.nextAttackTime
    {
      assert i < |gs| && (gs + [g])[i] == gs[i];
    }
  }

  /**
   * Ordering an attack from queue `q` of class `t` keeps the invariants of
   * both queues, `q` and the other class's queue `o`, and the spacing.
   */
  lemma OrderKeepsBoth(q: EnemyQueue, t: EnemyType, o: EnemyQueue, u: EnemyType, gs: seq<Grant>, cooldown: real, now: real)
    requires QueueInvariant(q, t, gs, cooldown) && QueueInvariant(o, u, gs, cooldown)
    requires GrantsSpaced(gs, cooldown)
    requires cooldown >= 0.0 && t != u
    requires |q.enemies| > 0 && q.nextAttackTime < now
    ensures var g := Grant(q.enemies[0], t, now);
      && QueueInvariant(EnemyQueue(q.enemies[1..], t, now + cooldown, Some(q.enemies[0])), t, gs + [g], cooldown)
      && QueueInvariant(o, u, gs + [g], cooldown)
      && GrantsSpaced(gs + [g], cooldown)
  {
    OrderKeepsInvariant(q, t, gs, cooldown, now);
    OtherGrantKeepsInvariant(o, u, gs, Grant(q.enemies[0], t, now), cooldown);
  }

  /** Appending a grant that comes more than `cooldown` after every earlier grant of its queue. */
  lemma AppendGrant(before: seq<Grant>, g: Grant, cooldown: real, t: EnemyType)
    requires GrantsSpaced(before, cooldown)
    requires forall i :: 0 <= i < |before| && before[i].queueType == g.queueType ==>
               before[i].time + cooldown < g.time
    ensures GrantsSpaced(before + [g], cooldown)
    ensures LastGrantOf(before + [g], t) == if t == g.queueType then Some(g) else LastGrantOf(before, t)
  {
    assert (before + [g])[..|before|] == before;
  }

  class EnemyManager {
    const attackCooldown: real
    var meleeQueue: EnemyQueue
    var rangedQueue: EnemyQueue
    /** Every AttemptAttack call so far, in order. */
    var attempts: seq<Grant>

    /** The queue GetQueueByType picks: ranged for Ranged, melee otherwise. */
    function QueueOf(t: EnemyType): EnemyQueue
      reads this
    {
      if t == Ranged then rangedQueue else meleeQueue
    }

    ghost predicate Valid()
      reads this
    {
      && attackCooldown == 1.0
      && QueueInvariant(meleeQueue, Melee, attempts, attackCooldown)
      && QueueInvariant(rangedQueue, Ranged, attempts, attackCooldown)
      && GrantsSpaced(attempts, attackCooldown)
    }

    /** Awake: both queues empty, next attack time 0, no last attacker. */
    constructor ()
      ensures Valid()
      ensures meleeQueue == EnemyQueue([], Melee, 0.0, None)
      ensures rangedQueue == EnemyQueue([], Ranged, 0.0, None)
      ensures attempts == []
    {
      attackCooldown := 1.0;
      meleeQueue := EnemyQueue([], Melee, 0.0, None);
      rangedQueue := EnemyQueue([], Ranged, 0.0, None);
      attempts := [];
    }

    /**
     * EnterAttackQueue / AddToQueue: appends `enemy` to the queue of class
     * `queueType` unless it is already there.
     */
    method EnterAttackQueue(enemy: EnemyId, queueType: EnemyType) returns (added: bool)
      requires Valid()
      modifies this
      ensures Valid()
      ensures added == (enemy !in old(QueueOf(queueType)).enemies)
      ensures QueueOf(queueType) == old(QueueOf(queueType)).(enemies :=
                if added then old(QueueOf(queueType)).enemies + [enemy] else old(QueueOf(queueType)).enemies)
      ensures queueType == Ranged ==> meleeQueue == old(meleeQueue)
      ensures queueType == Melee ==> rangedQueue == old(rangedQueue)
      ensures attempts == old(attempts)
    {
      var q := QueueOf(queueType);
      if enemy in q.enemies {
        return false;
      }
      q := q.(enemies := q.enemies + [enemy]);
      if queueType == Ranged { rangedQueue := q; } else { meleeQueue := q; }
      added := true;
    }

    /**
     * Dequeues the head of queue `t`, lets it attempt an attack, and starts
     * the cooldown. Only called by CheckForAttack once its guard holds.
     */
    method OrderAttack(t: EnemyType, now: real)
      requires Valid()
      requires |QueueOf(t).enemies| > 0 && QueueOf(t).nextAttackTime < now
      modifies this
      ensures Valid()
      ensures QueueOf(t) == EnemyQueue(old(QueueOf(t)).enemies[1..], t, now + attackCooldown,
                                       Some(old(QueueOf(t)).enemies[0]))
      ensures t == Ranged ==> meleeQueue == old(meleeQueue)
      ensures t == Melee ==> rangedQueue == old(rangedQueue)
      ensures attempts == old(attempts) + [Grant(old(QueueOf(t)).enemies[0], t, now)]
    {
      var q := QueueOf(t);
      var enemy := q.enemies[0];
      var next := EnemyQueue(q.enemies[1..], t, now + attackCooldown, Some(enemy));
      if t == Ranged {
        OrderKeepsBoth(rangedQueue, Ranged, meleeQueue, Melee, attempts, attackCooldown, now);
        attempts := attempts + [Grant(enemy, t, now)];
        rangedQueue := next;
      } else {
        OrderKeepsBoth(meleeQueue, Melee, rangedQueue, Ranged, attempts, attackCooldown, now);
        attempts := attempts + [Grant(enemy, t, now)];
        meleeQueue := next;
      }
    }

    /** Orders an attack from queue `t` when it is non-empty and its cooldown has passed. */
    method CheckForAttack(t: EnemyType, now: real)
      requires Valid()
      modifies this
      ensures Valid()
      ensures var q := old(QueueOf(t));
        if |q.enemies| > 0 && q.nextAttackTime < now then
          && QueueOf(t) == EnemyQueue(q.enemies[1..], t, now + attackCooldown, Some(q.enemies[0]))
          && attempts == old(attempts) + [Grant(q.enemies[0], t, now)]
        else
          QueueOf(t) == q && attempts == old(attempts)
      ensures t == Ranged ==> meleeQueue == old(meleeQueue)
      ensures t == Melee ==> rangedQueue == old(rangedQueue)
    {
      var q := QueueOf(t);
      if |q.enemies| > 0 && q.nextAttackTime < now {
        OrderAttack(t, now);
      }
    }

    /** One tick: the melee queue, then the ranged queue, each grants at most one attack. */
    method Update(now: real)
      requires Valid()
      modifies this
      ensures Valid()
      ensures var m, r := old(meleeQueue), old(rangedQueue);
        var mg := if |m.enemies| > 0 && m.nextAttackTime < now then [Grant(m.enemies[0], Melee, now)] else [];
        var rg := if |r.enemies| > 0 && r.nextAttackTime < now then [Grant(r.enemies[0], Ranged, now)] else [];
        attempts == old(attempts) + mg + rg
    ensures var m := old(meleeQueue);
      meleeQueue == if |m.enemies| > 0 && m.nextAttackTime < now
                    then EnemyQueue(m.enemies[1..], Melee, now + attackCooldown, Some(m.enemies[0])) else m
    ensures var r := old(rangedQueue);
      rangedQueue == if |r.enemies| > 0 && r.nextAttackTime < now
                     then EnemyQueue(r.enemies[1..], Ranged, now + attackCooldown, Some(r.enemies[0])) else r
    {
      ghost var m0, r0, a0 := meleeQueue, rangedQueue, attempts;
      ghost var mg := if |m0.enemies| > 0 && m0.nextAttackTime < now then [Grant(m0.enemies[0], Melee, now)] else [];
      ghost var rg := if |r0.enemies| > 0 && r0.nextAttackTime < now then [Grant(r0.enemies[0], Ranged, now)] else [];
      CheckForAttack(Melee, now);
      assert attempts == a0 + mg && rangedQueue == r0;
      ghost var m1, a1 := meleeQueue, attempts;
      CheckForAttack(Ranged, now);
      assert attempts == a1 + rg && meleeQueue == m1;
    }
  }
}
