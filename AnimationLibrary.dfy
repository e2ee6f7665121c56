/**
 * An animation library asset: an array of (name, clip) mappings from which a
 * name-to-clip dictionary is built.
 */
module Animations {
  import opened Wrappers

  /** An animation clip asset. */
  type ClipId = nat

  datatype AnimationClipMapping = AnimationClipMapping(name: string, animation: ClipId)

  predicate DistinctNames(ms: seq<AnimationClipMapping>) {
    forall i, j :: 0 <= i < j < |ms| ==> ms[i].name != ms[j].name
  }

  function Names(ms: seq<AnimationClipMapping>): set<string> {
    set k | 0 <= k < |ms| :: ms[k].name
  }

  /**
   * The number of mappings the build adds before a name repeats: `|ms|`
   * when the names are distinct, otherwise the index of the first mapping
   * whose name appeared before.
   */
  function FirstDuplicate(ms: seq<AnimationClipMapping>): (k: nat)
    ensures k <= |ms|
    ensures DistinctNames(ms[..k])
    ensures k < |ms| ==> ms[k].name in Names(ms[..k])
    ensures k == |ms| <==> DistinctNames(ms)
    decreases |ms|
  {
    if ms == [] then 0
    else
      var n := |ms| - 1;
      var k := FirstDuplicate(ms[..n]);
      assert ms[..n][..k] == ms[..k];
      if k < n then
        assert !DistinctNames(ms) by {
          var j :| 0 <= j < k && ms[j].name == ms[k].name;
        }
        k
      else if ms[n].name in Names(ms[..n]) then
        assert !DistinctNames(ms) by {
          var j :| 0 <= j < n && ms[..n][j].name == ms[n].name;
        }
        n
      else
        assert ms[..|ms|] == ms;
        |ms|
  }

  /** The first `k` for which the build stops: it is FirstDuplicate. */
  lemma {:induction false} FirstDuplicateUnique(ms: seq<AnimationClipMapping>, i: nat)
    requires i <= |ms|
    requires DistinctNames(ms[..i])
    requires i < |ms| ==> ms[i].name in Names(ms[..i])
    ensures FirstDuplicate(ms) == i
  {
    // an earlier stop would put a repeated name inside ms[..i]; a later one
    // would have ms[..k] contain the repeat at i
  }

  /** The dictionary after adding each mapping of `ms` in order. */
  function LookupOf(ms: seq<AnimationClipMapping>): map<string, ClipId>
    decreases |ms|
  {
    if ms == [] then map[]
    else LookupOf(ms[..|ms| - 1])[ms[|ms| - 1].name := ms[|ms| - 1].animation]
  }

  /** The dictionary's keys are the mappings' names. */
  lemma {:induction false} LookupOfKeys(ms: seq<AnimationClipMapping>)
    ensures LookupOf(ms).Keys == Names(ms)
    decreases |ms|
  {
    if ms != [] {
      LookupOfKeys(ms[..|ms| - 1]);
      NamesFront(ms);
    }
  }

  /** With distinct names, the dictionary has one entry per mapping. */
  lemma {:induction false} LookupOfSize(ms: seq<AnimationClipMapping>)
    requires DistinctNames(ms)
    ensures |LookupOf(ms)| == |ms|
    decreases |ms|
  {
    if ms != [] {
      var n := |ms| - 1;
      DistinctFront(ms);
      LookupOfSize(ms[..n]);
      LookupOfKeys(ms[..n]);
      NamesFront(ms);
      var prev := LookupOf(ms[..n]);
      assert ms[n].name !in prev.Keys;
      assert |prev[ms[n].name := ms[n].animation]| == |prev| + 1;
    }
  }

  /** With distinct names, the dictionary maps each mapping's name to its clip. */
  lemma {:induction false} LookupOfValues(ms: seq<AnimationClipMapping>)
    requires DistinctNames(ms)
    ensures forall k :: 0 <= k < |ms| ==> ms[k].name in LookupOf(ms) && LookupOf(ms)[ms[k].name] == ms[k].animation
    decreases |ms|
  {
    if ms != [] {
      var n := |ms| - 1;
      var front := ms[..n];
      DistinctFront(ms);
      LookupOfValues(front);
      LookupOfKeys(ms);
      forall k | 0 <= k < |ms| ensures ms[k].name in LookupOf(ms) && LookupOf(ms)[ms[k].name] == ms[k].animation {
        if k < n {
          assert front[k] == ms[k];
          assert ms[k].name != ms[n].name;
        }
      }
    }
  }

  lemma DistinctFront(ms: seq<AnimationClipMapping>)
    requires DistinctNames(ms) && |ms| > 0
    ensures DistinctNames(ms[..|ms| - 1])
  {
    var front := ms[..|ms| - 1];
    forall i, j | 0 <= i < j < |front| ensures front[i].name != front[j].name {
      assert front[i] == ms[i] && front[j] == ms[j];
    }
  }

  /** A mapping whose name is new keeps the names of a prefix distinct, and LookupOf adds it last. */
  lemma DistinctSnoc(ms: seq<AnimationClipMapping>, i: nat)
    requires i < |ms|
    requires DistinctNames(ms[..i]) && ms[i].name !in Names(ms[..i])
    ensures DistinctNames(ms[..i + 1])
    ensures LookupOf(ms[..i + 1]) == LookupOf(ms[..i])[ms[i].name := ms[i].animation]
  {
    assert ms[..i + 1][..i] == ms[..i];
    forall a, b | 0 <= a < b < i + 1 ensures ms[a].name != ms[b].name {
      if b == i {
        assert ms[a] == ms[..i][a];
      }
    }
  }

  /** The names of a non-empty list: those of its front and its last name, which is new when names are distinct. */
  lemma NamesFront(ms: seq<AnimationClipMapping>)
    requires |ms| > 0
    ensures Names(ms) == Names(ms[..|ms| - 1]) + {ms[|ms| - 1].name}
    ensures DistinctNames(ms) ==> ms[|ms| - 1].name !in Names(ms[..|ms| - 1])
  {
    var n := |ms| - 1;
    var front := ms[..n];
    forall x | x in Names(ms) ensures x in Names(front) + {ms[n].name} {
      var k :| 0 <= k < |ms| && ms[k].name == x;
      if k < n { assert front[k] == ms[k]; }
    }
    forall x | x in Names(front) ensures x in Names(ms) {
      var k :| 0 <= k < |front| && front[k].name == x;
      assert ms[k] == front[k];
    }
  }

  class AnimationLibrary {
    var animationClips: seq<AnimationClipMapping>
    var animationLookup: Option<map<string, ClipId>>

    constructor (clips: seq<AnimationClipMapping>)
      ensures animationClips == clips && animationLookup == None
    {
      animationClips := clips;
      animationLookup := None;
    }

    /**
     * Replaces the lookup with a fresh dictionary and adds every mapping in
     * order. A repeated name makes the add throw (`ok` false); the field then
     * holds the dictionary built up to that mapping.
     */
    method BuildLookup() returns (ok: bool)
      modifies this`animationLookup
      ensures animationClips == old(animationClips)
      ensures ok <==> DistinctNames(animationClips)
      ensures animationLookup == Some(LookupOf(animationClips[..FirstDuplicate(animationClips)]))
      ensures ok ==> animationLookup.value.Keys == Names(animationClips)
      ensures ok ==> |animationLookup.value| == |animationClips|
      ensures ok ==> forall k :: 0 <= k < |animationClips| ==>
                animationLookup.value[animationClips[k].name] == animationClips[k].animation
    {
      var clips := animationClips;
      animationLookup := Some(map[]);
      var i := 0;
      while i < |clips|
        invariant 0 <= i <= |clips|
        invariant DistinctNames(clips[..i])
        invariant animationLookup == Some(LookupOf(clips[..i]))
      {
        var m := clips[i];
        LookupOfKeys(clips[..i]);
        if m.name in animationLookup.value {
          FirstDuplicateUnique(clips, i);
          return false;
        }
        DistinctSnoc(clips, i);
        animationLookup := Some(animationLookup.value[m.name := m.animation]);
        i := i + 1;
      }
      assert clips[..i] == clips;
      FirstDuplicateUnique(clips, i);
      LookupOfKeys(clips);
      LookupOfSize(clips);
      LookupOfValues(clips);
      ok := true;
    }
  }
}
