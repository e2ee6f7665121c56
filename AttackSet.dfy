/**
 * A weighted attack table: a list of (attack, weight) items, sorted by weight,
 * from which an attack is picked by a seed the caller draws.
 */
module AttackSets {
  import opened Wrappers
  import opened CombatData

  datatype AttackSetItem = AttackSetItem(attack: Attack, weight: real)

  /** `attacks[attacks.Count - 1]` on an empty list throws. */
  datatype SelectError = ArgumentOutOfRange

  predicate SortedByWeight(items: seq<AttackSetItem>) {
    forall i, j :: 0 <= i < j < |items| ==> items[i].weight <= items[j].weight
  }

  /** Prepending an item no heavier than any in a sorted list keeps it sorted. */
  lemma SortedCons(a: AttackSetItem, s: seq<AttackSetItem>)
    requires SortedByWeight(s)
    requires forall k :: 0 <= k < |s| ==> a.weight <= s[k].weight
    ensures SortedByWeight([a] + s)
  {
    forall i, j | 0 <= i < j < |[a] + s| ensures ([a] + s)[i].weight <= ([a] + s)[j].weight {
      if i > 0 {
        assert ([a] + s)[i] == s[i - 1];
      }
      assert ([a] + s)[j] == s[j - 1];
    }
  }

  /** Inserts `x` into a list sorted by weight, keeping it sorted. */
  function InsertByWeight(x: AttackSetItem, items: seq<AttackSetItem>): (r: seq<AttackSetItem>)
    requires SortedByWeight(items)
    ensures SortedByWeight(r)
    ensures |r| == |items| + 1
    ensures forall k :: 0 <= k < |r| ==> r[k] == x || (|items| > 0 && items[0].weight <= r[k].weight)
    decreases |items|
  {
    if items == [] then [x]
    else if x.weight <= items[0].weight then
      SortedCons(x, items);
      [x] + items
    else
      var rest := InsertByWeight(x, items[1..]);
      assert forall k :: 0 <= k < |rest| ==> items[0].weight <= rest[k].weight by {
        forall k | 0 <= k < |rest| ensures items[0].weight <= rest[k].weight {
          if rest[k] != x {
            assert items[0].weight <= items[1].weight;
          }
        }
      }
      SortedCons(items[0], rest);
      assert forall k :: 0 <= k < |rest| + 1 ==> ([items[0]] + rest)[k] == items[0] || ([items[0]] + rest)[k] == rest[k - 1];
      [items[0]] + rest
  }

  /** Insertion adds exactly `x` to the items. */
  lemma {:induction false} InsertByWeightPermutes(x: AttackSetItem, items: seq<AttackSetItem>)
    requires SortedByWeight(items)
    ensures multiset(InsertByWeight(x, items)) == multiset(items) + multiset{x}
    decreases |items|
  {
    if items != [] && x.weight > items[0].weight {
      assert items == [items[0]] + items[1..];
      InsertByWeightPermutes(x, items[1..]);
    }
  }

  /** The items ordered by non-decreasing weight. */
  function SortByWeight(items: seq<AttackSetItem>): (r: seq<AttackSetItem>)
    ensures SortedByWeight(r)
    ensures multiset(r) == multiset(items)
    decreases |items|
  {
    if items == [] then []
    else
      assert items == [items[0]] + items[1..];
      InsertByWeightPermutes(items[0], SortByWeight(items[1..]));
      InsertByWeight(items[0], SortByWeight(items[1..]))
  }

  /**
   * The index of the first item whose weight is at or above `seed`, or
   * `|items|` when there is none: the foreach loop's early return.
   */
  function FirstAtOrAbove(items: seq<AttackSetItem>, seed: real): (k: nat)
    ensures k <= |items|
    ensures forall j :: 0 <= j < k ==> items[j].weight < seed
    ensures k < |items| ==> seed <= items[k].weight
    decreases |items|
  {
    if items == [] then 0
    else if seed <= items[0].weight then 0
    else 1 + FirstAtOrAbove(items[1..], seed)
  }

  /** The index GetByRandomSeed reads on a non-empty list. */
  function SelectedIndex(items: seq<AttackSetItem>, seed: real): (k: nat)
    requires |items| > 0
    ensures k < |items|
    ensures forall j :: 0 <= j < k ==> items[j].weight < seed
    ensures (exists j :: 0 <= j < |items| && seed <= items[j].weight) ==> seed <= items[k].weight
    ensures (forall j :: 0 <= j < |items| ==> items[j].weight < seed) ==> k == |items| - 1
  {
    var f := FirstAtOrAbove(items, seed);
    if f < |items| then f else |items| - 1
  }

  /** A larger seed never selects an earlier item. */
  lemma {:induction false} SelectedIndexMonotone(items: seq<AttackSetItem>, s1: real, s2: real)
    requires |items| > 0
    requires s1 <= s2
    ensures SelectedIndex(items, s1) <= SelectedIndex(items, s2)
  {
    // follows from the contract of SelectedIndex: the item picked for s2 is
    // at or above s1 unless it is the clamp index, which nothing lies beyond
  }

  class AttackSet {
    var attacks: seq<AttackSetItem>

    constructor (items: seq<AttackSetItem>)
      ensures attacks == items
    {
      attacks := items;
    }

    /** Sorts the list in place by weight. */
    method SortAttacks()
      modifies this
      ensures SortedByWeight(attacks)
      ensures multiset(attacks) == multiset(old(attacks))
    {
      attacks := SortByWeight(attacks);
    }

    /**
     * The attack of the first item whose weight is at or above `seed`; the
     * last item's attack when none is; an exception on an empty list.
     */
    function GetByRandomSeed(seed: real): (r: Result<Attack, SelectError>)
      reads this
      ensures r.Err? <==> attacks == []
      ensures r.Ok? ==> exists k :: 0 <= k < |attacks| && r.value == attacks[k].attack
      ensures forall k :: (0 <= k < |attacks| && seed <= attacks[k].weight &&
                  forall j :: 0 <= j < k ==> attacks[j].weight < seed) ==>
                r == Ok(attacks[k].attack)
      ensures (|attacks| > 0 && forall j :: 0 <= j < |attacks| ==> attacks[j].weight < seed) ==>
                r == Ok(attacks[|attacks| - 1].attack)
    {
      if attacks == [] then Err(ArgumentOutOfRange)
      else Ok(attacks[SelectedIndex(attacks, seed)].attack)
    }
  }
}
