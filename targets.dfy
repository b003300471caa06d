/**
 * The target list of a survey and the index arithmetic of the compass
 * screen's First / Prev / Next / Last buttons.
 */
module Targets {
  import opened Wrappers
  import opened Seqs

  /** A recorded find: its id, where it was recorded and its name. */
  datatype Target = Target(id: string, lat: real, lng: real, notes: string)

  /** No two targets share an id. */
  predicate UniqueIds(ts: seq<Target>) {
    forall i, j :: 0 <= i < |ts| && 0 <= j < |ts| && ts[i].id == ts[j].id ==> i == j
  }

  /**
   * `targets.findIndex(x => x.id === selectedTargetId)`: the first position
   * holding the selected id, or -1 (always -1 when nothing is selected).
   */
  function IndexOf(ts: seq<Target>, sel: Option<string>): (r: int)
    ensures -1 <= r < |ts|
    ensures r >= 0 ==> sel.Some? && ts[r].id == sel.value && forall j :: 0 <= j < r ==> ts[j].id != sel.value
    ensures r == -1 ==> sel.None? || forall j :: 0 <= j < |ts| ==> ts[j].id != sel.value
  {
    if sel.None? || ts == [] then -1
    else if ts[0].id == sel.value then 0
    else
      var k := IndexOf(ts[1..], sel);
      if k < 0 then -1 else k + 1
  }

  /** With unique ids, looking up a target's own id finds that target. */
  lemma IndexOfUnique(ts: seq<Target>, k: nat)
    requires UniqueIds(ts) && k < |ts|
    ensures IndexOf(ts, Some(ts[k].id)) == k
  {
  }

  /** The Prev button: the previous index, wrapping from the first (or no selection) to the last. */
  function PrevIndex(i: int, n: nat): (r: nat)
    requires n > 0 && -1 <= i < n
    ensures r < n
    ensures i > 0 ==> r == i - 1
    ensures i <= 0 ==> r == n - 1
  {
    if i > 0 then i - 1 else n - 1
  }

  /** The Next button as the first copy guards it: the next index, wrapping to 0. */
  function NextIndex(i: int, n: nat): (r: nat)
    requires n > 0 && -1 <= i < n
    ensures r < n
    ensures 0 <= i < n - 1 ==> r == i + 1
    ensures (i == -1 || i == n - 1) ==> r == 0
  {
    if i >= 0 && i < n - 1 then i + 1 else 0
  }

  /** The Next button as the second copy guards it (`idx < length - 1` alone). */
  function NextIndexSecondCopy(i: int, n: nat): (r: int)
    requires n > 0 && -1 <= i < n
    ensures 0 <= r < n
  {
    if i < n - 1 then i + 1 else 0
  }

  /** The two guards give the same index for every result `findIndex` can return. */
  lemma NextGuardsAgree(i: int, n: nat)
    requires n > 0 && -1 <= i < n
    ensures NextIndexSecondCopy(i, n) == NextIndex(i, n)
  {
  }

  /**
   * With unique ids, Next then Prev returns to the selected target, and so
   * does Prev then Next.
   */
  lemma NextAndPrevAreInverse(ts: seq<Target>, k: nat)
    requires UniqueIds(ts) && k < |ts|
    ensures var j := NextIndex(IndexOf(ts, Some(ts[k].id)), |ts|);
      PrevIndex(IndexOf(ts, Some(ts[j].id)), |ts|) == k
    ensures var j := PrevIndex(IndexOf(ts, Some(ts[k].id)), |ts|);
      NextIndex(IndexOf(ts, Some(ts[j].id)), |ts|) == k
  {
    IndexOfUnique(ts, k);
    IndexOfUnique(ts, NextIndex(k, |ts|));
    IndexOfUnique(ts, PrevIndex(k, |ts|));
  }

  /** `targets.filter(x => x.id !== id)`: every target with that id removed, the others kept in order. */
  function WithoutTarget(ts: seq<Target>, id: string): (r: seq<Target>)
    ensures |r| <= |ts|
    ensures forall k :: 0 <= k < |r| ==> r[k].id != id && r[k] in ts
    ensures forall k :: 0 <= k < |ts| && ts[k].id != id ==> ts[k] in r
    ensures IndexOf(ts, Some(id)) >= 0 ==> |r| < |ts|
    ensures IndexOf(ts, Some(id)) == -1 ==> r == ts
  {
    if ts == [] then []
    else if ts[0].id == id then WithoutTarget(ts[1..], id)
    else [ts[0]] + WithoutTarget(ts[1..], id)
  }

  /** The filter keeps every other target as often as the list holds it, and no copy of one with the id. */
  lemma {:induction false} WithoutTargetCounts(ts: seq<Target>, id: string)
    ensures forall t :: multiset(WithoutTarget(ts, id))[t] == if t.id == id then 0 else multiset(ts)[t]
  {
    if ts != [] {
      WithoutTargetCounts(ts[1..], id);
      MultisetCons(ts);
    }
  }

  /** What the filter keeps of one target: nothing when it carries the id, else the target itself. */
  function Kept(t: Target, id: string): seq<Target> {
    if t.id == id then [] else [t]
  }

  lemma Unfold(ts: seq<Target>, id: string)
    requires ts != []
    ensures WithoutTarget(ts, id) == Kept(ts[0], id) + WithoutTarget(ts[1..], id)
  {
  }

  /**
   * The filter keeps order: filtering a concatenation is the concatenation
   * of the filtered parts, so a target kept before another stays before it.
   */
  lemma {:induction false} WithoutTargetAppend(a: seq<Target>, b: seq<Target>, id: string)
    ensures WithoutTarget(a + b, id) == WithoutTarget(a, id) + WithoutTarget(b, id)
  {
    if a == [] {
      assert a + b == b;
    } else {
      Unfold(a, id);
      UnfoldAppend(a, b, id);
      WithoutTargetAppend(a[1..], b, id);
      ConcatAssoc(Kept(a[0], id), WithoutTarget(a[1..], id), WithoutTarget(b, id));
    }
  }

  lemma UnfoldAppend(a: seq<Target>, b: seq<Target>, id: string)
    requires a != []
    ensures WithoutTarget(a + b, id) == Kept(a[0], id) + WithoutTarget(a[1..] + b, id)
  {
    assert (a + b)[0] == a[0];
    assert (a + b)[1..] == a[1..] + b;
  }

  /** A single target is dropped exactly when it carries the id. */
  lemma WithoutTargetSingle(t: Target, id: string)
    ensures WithoutTarget([t], id) == Kept(t, id)
  {
    assert [t][1..] == [];
  }
}
