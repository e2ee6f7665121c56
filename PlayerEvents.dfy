/**
 * Pure helpers of the player controller: reading the weapon side out of a
 * "collide.<side>" animation event, and the per-swing selection of targets
 * that have not been hit yet.
 */
module PlayerEvents {
  import opened Wrappers
  import opened CombatData

  datatype Side = Left | Right | Front

  /** The overlap-sphere results at each weapon collider: per collider hit, its CombatTarget if it has one. */
  datatype WeaponCollision = WeaponCollision(
    left: seq<Option<TargetId>>,
    right: seq<Option<TargetId>>,
    front: seq<Option<TargetId>>)

  function CollidersAt(c: WeaponCollision, side: Side): seq<Option<TargetId>> {
    match side
    case Left => c.left
    case Right => c.right
    case Front => c.front
  }

  /** The index of the first `c` in `s`, or `|s|` when there is none. */
  function IndexOf(s: string, c: char): (k: nat)
    ensures k <= |s|
    ensures k < |s| ==> s[k] == c
    ensures forall j :: 0 <= j < k ==> s[j] != c
    decreases |s|
  {
    if s == [] then 0
    else if s[0] == c then 0
    else 1 + IndexOf(s[1..], c)
  }

  /** `s.Contains(t)`. */
  predicate Contains(s: string, t: string)
    decreases |s|
  {
    |t| <= |s| && (s[..|t|] == t || Contains(s[1..], t))
  }

  /** `t` occurs in `s` starting at index `i`. */
  predicate OccursAt(s: string, t: string, i: int) {
    0 <= i <= |s| - |t| && s[i..i + |t|] == t
  }

  /** `Contains` holds exactly when `t` occurs in `s` at some offset. */
  lemma {:induction false} ContainsAtOffset(s: string, t: string)
    ensures Contains(s, t) <==> exists i :: OccursAt(s, t, i)
    decreases |s|
  {
    if |t| <= |s| && s != [] {
      ContainsAtOffset(s[1..], t);
      if s[..|t|] == t {
        assert OccursAt(s, t, 0);
      }
      if Contains(s[1..], t) {
        var i :| OccursAt(s[1..], t, i);
        assert s[i + 1..i + 1 + |t|] == s[1..][i..i + |t|];
        assert OccursAt(s, t, i + 1);
      }
      if i :| OccursAt(s, t, i) && i > 0 {
        assert s[1..][i - 1..i - 1 + |t|] == s[i..i + |t|];
        assert OccursAt(s[1..], t, i - 1);
      }
    } else if |t| <= |s| {
      assert OccursAt(s, t, 0);
    }
  }

  /**
   * `s.Split('.')[1]` when the split has more than one part: the text
   * between the first dot and the next one (or the end).
   */
  function SecondField(s: string): (r: Option<string>)
    ensures r.None? <==> '.' !in s
    ensures r.Some? ==> '.' !in r.value
  {
    var i := IndexOf(s, '.');
    if i == |s| then None
    else
      var rest := s[i + 1..];
      var f := rest[..IndexOf(rest, '.')];
      assert forall j :: 0 <= j < |f| ==> f[j] == rest[j];
      Some(f)
  }

  /** The collider a "collide" event fires: left, right, or front for anything else. */
  function CollideSide(message: string): Side {
    match SecondField(message)
    case None => Front
    case Some(f) => if f == "left" then Left else if f == "right" then Right else Front
  }

  lemma {:induction false} IndexOfAfter(a: string, c: char, b: string)
    requires c !in a
    ensures IndexOf(a + [c] + b, c) == |a|
    decreases |a|
  {
    if a != [] {
      assert (a + [c] + b)[1..] == a[1..] + [c] + b;
      IndexOfAfter(a[1..], c, b);
    }
  }

  /** The first dot of `field + tail` ends `field` when `tail` is empty or starts with a dot. */
  lemma FieldEnd(field: string, tail: string)
    requires '.' !in field
    requires tail == [] || tail[0] == '.'
    ensures IndexOf(field + tail, '.') == |field|
  {
    if tail == [] {
      assert field + tail == field;
    } else {
      assert field + tail == field + ['.'] + tail[1..];
      IndexOfAfter(field, '.', tail[1..]);
    }
  }

  /** The second dot-separated field of `head.field` or `head.field.more` is `field`. */
  lemma SecondFieldOf(head: string, field: string, tail: string)
    requires '.' !in head && '.' !in field
    requires tail == [] || tail[0] == '.'
    ensures SecondField(head + "." + field + tail) == Some(field)
  {
    var s := head + "." + field + tail;
    assert s == head + ['.'] + (field + tail);
    IndexOfAfter(head, '.', field + tail);
    assert s[|head| + 1..] == field + tail;
    FieldEnd(field, tail);
    assert (field + tail)[..|field|] == field;
  }

  /**
   * A message `head.field` or `head.field.more`, with no dot in `head` or
   * `field`, fires the side `field` names: left, right, otherwise front.
   */
  lemma CollideSideOfField(head: string, field: string, tail: string)
    requires '.' !in head && '.' !in field
    requires tail == [] || tail[0] == '.'
    ensures CollideSide(head + "." + field + tail) ==
              if field == "left" then Left else if field == "right" then Right else Front
  {
    SecondFieldOf(head, field, tail);
  }

  /** A message without a dot fires the front collider. */
  lemma CollideSideNoDot(message: string)
    requires '.' !in message
    ensures CollideSide(message) == Front
  {
  }

  /** The two events the animations send. */
  lemma CollideLeft()
    ensures CollideSide("collide.left") == Left
  {
    assert "collide.left" == "collide" + "." + "left" + "";
    CollideSideOfField("collide", "left", "");
  }

  lemma CollideRight()
    ensures CollideSide("collide.right") == Right
  {
    assert "collide.right" == "collide" + "." + "right" + "";
    CollideSideOfField("collide", "right", "");
  }

  /**
   * The targets a melee scan adds, in order: each collider's CombatTarget
   * that is neither in `seen` nor added earlier in the scan.
   */
  function NewTargets(seen: seq<TargetId>, hits: seq<Option<TargetId>>): (r: seq<TargetId>)
    ensures NoDuplicates(seen) ==> NoDuplicates(seen + r)
    decreases |hits|
  {
    if hits == [] then []
    else
      var rest := NewTargets(if hits[0].Some? && hits[0].value !in seen then seen + [hits[0].value] else seen, hits[1..]);
      assert hits == [hits[0]] + hits[1..];
      if hits[0].Some? && hits[0].value !in seen then
        assert seen + ([hits[0].value] + rest) == (seen + [hits[0].value]) + rest;
        [hits[0].value] + rest
      else
        rest
  }

  /** A target is new exactly when some collider has it and it was not seen before. */
  lemma {:induction false} NewTargetsMembers(seen: seq<TargetId>, hits: seq<Option<TargetId>>)
    ensures forall t :: t in NewTargets(seen, hits) <==> (t !in seen && Some(t) in hits)
    decreases |hits|
  {
    if hits != [] {
      assert hits == [hits[0]] + hits[1..];
      NewTargetsMembers(if hits[0].Some? && hits[0].value !in seen then seen + [hits[0].value] else seen, hits[1..]);
    }
  }

  /** The GetHit calls made on `ts`, in order, with one payload. */
  function HitCallsFor(ts: seq<TargetId>, damage: real, powerful: bool, fx: Option<FxId>): seq<HitCall>
  {
    seq(|ts|, k requires 0 <= k < |ts| => HitCall(ts[k], damage, powerful, fx))
  }
}
