/** Grouped sums over (key, value) pairs, in the way both the source's MongoDB `$group`
    stage and the Dashboard's `reduce` compute them: walk the pairs in order and either
    add to the group that already has the key (the first one `find` returns) or push a
    new group at the end. */
module Grouping {
  import opened Util

  datatype Group<K> = Group(key: K, total: int, count: nat)

  /** The index `findIndex` returns: the first group with key `k`, or |gs| if none. */
  function FindIndex<K(==)>(gs: seq<Group<K>>, k: K): (j: nat)
    ensures j <= |gs|
    ensures j < |gs| ==> gs[j].key == k
    ensures forall i :: 0 <= i < j ==> gs[i].key != k
  {
    if |gs| == 0 then 0
    else if gs[0].key == k then 0
    else 1 + FindIndex(gs[1..], k)
  }

  /** `gs.find(g => g.key === k)`. */
  function FindGroup<K(==)>(gs: seq<Group<K>>, k: K): Option<Group<K>>
  {
    var j := FindIndex(gs, k);
    if j < |gs| then Some(gs[j]) else None
  }

  /** One step of the fold: update the existing group in place, or push a new one. */
  function AddTo<K(==)>(gs: seq<Group<K>>, k: K, v: int): seq<Group<K>>
  {
    var j := FindIndex(gs, k);
    if j < |gs| then gs[j := gs[j].(total := gs[j].total + v, count := gs[j].count + 1)]
    else gs + [Group(k, v, 1)]
  }

  /** The groups of all pairs, in order of each key's first appearance. */
  function GroupSums<K(==)>(p: seq<(K, int)>): seq<Group<K>>
  {
    if |p| == 0 then [] else AddTo(GroupSums(p[..|p| - 1]), p[|p| - 1].0, p[|p| - 1].1)
  }

  /** Reference definitions: the sum and the number of the values carrying key `k`. */
  function SumFor<K(==)>(p: seq<(K, int)>, k: K): int
  {
    if |p| == 0 then 0
    else SumFor(p[..|p| - 1], k) + (if p[|p| - 1].0 == k then p[|p| - 1].1 else 0)
  }

  function CountFor<K(==)>(p: seq<(K, int)>, k: K): nat
  {
    if |p| == 0 then 0
    else CountFor(p[..|p| - 1], k) + (if p[|p| - 1].0 == k then 1 else 0)
  }

  ghost predicate DistinctKeys<K>(gs: seq<Group<K>>)
  {
    forall i, j :: 0 <= i < j < |gs| ==> gs[i].key != gs[j].key
  }

  function Totals<K>(gs: seq<Group<K>>): int
  {
    SumBy(gs, (g: Group<K>) => g.total)
  }

  function Counts<K>(gs: seq<Group<K>>): int
  {
    SumBy(gs, (g: Group<K>) => g.count)
  }

  lemma FindIndexIs<K>(gs: seq<Group<K>>, k: K, j: nat)
    requires j <= |gs| && (j < |gs| ==> gs[j].key == k)
    requires forall i :: 0 <= i < j ==> gs[i].key != k
    ensures FindIndex(gs, k) == j
  {
  }

  /** What `find` sees after one fold step. */
  lemma FindAfterAdd<K>(gs: seq<Group<K>>, k: K, v: int, q: K)
    ensures FindGroup(AddTo(gs, k, v), q) ==
      if q != k then FindGroup(gs, q)
      else match FindGroup(gs, k)
        case None => Some(Group(k, v, 1))
        case Some(g) => Some(g.(total := g.total + v, count := g.count + 1))
  {
    var j := FindIndex(gs, k);
    var gs' := AddTo(gs, k, v);
    var jq := FindIndex(gs, q);
    if q == k {
      FindIndexIs(gs', k, j);
    } else if j < |gs| {
      assert forall i :: 0 <= i < |gs| ==> gs'[i].key == gs[i].key;
      FindIndexIs(gs', q, jq);
    } else if jq < |gs| {
      FindIndexIs(gs', q, jq);
    } else {
      FindIndexIs(gs', q, |gs'|);
    }
  }

  /** `find` on the grouped pairs returns exactly the key's sum and count, and finds
      nothing for a key that never occurs. */
  lemma {:induction false} FindGroupSums<K>(p: seq<(K, int)>, k: K)
    ensures FindGroup(GroupSums(p), k) ==
      if CountFor(p, k) > 0 then Some(Group(k, SumFor(p, k), CountFor(p, k))) else None
  {
    if |p| > 0 {
      var init := p[..|p| - 1];
      NoCountNoSum(init, k);
      FindGroupSums(init, k);
      FindAfterAdd(GroupSums(init), p[|p| - 1].0, p[|p| - 1].1, k);
    }
  }

  lemma {:induction false} NoCountNoSum<K>(p: seq<(K, int)>, k: K)
    ensures CountFor(p, k) == 0 ==> SumFor(p, k) == 0
  {
    if |p| > 0 {
      NoCountNoSum(p[..|p| - 1], k);
    }
  }

  lemma AddToDistinct<K>(gs: seq<Group<K>>, k: K, v: int)
    requires DistinctKeys(gs)
    ensures DistinctKeys(AddTo(gs, k, v))
  {
  }

  /** No key is grouped twice. */
  lemma {:induction false} GroupSumsDistinct<K>(p: seq<(K, int)>)
    ensures DistinctKeys(GroupSums(p))
  {
    if |p| > 0 {
      GroupSumsDistinct(p[..|p| - 1]);
      AddToDistinct(GroupSums(p[..|p| - 1]), p[|p| - 1].0, p[|p| - 1].1);
    }
  }

  lemma FindDistinct<K>(gs: seq<Group<K>>, i: nat)
    requires DistinctKeys(gs) && i < |gs|
    ensures FindGroup(gs, gs[i].key) == Some(gs[i])
  {
    FindIndexIs(gs, gs[i].key, i);
  }

  /** Every group is the sum and count of its own key, and that key occurs. */
  lemma GroupSumsEntries<K>(p: seq<(K, int)>)
    ensures forall i :: 0 <= i < |GroupSums(p)| ==>
      var g := GroupSums(p)[i];
      g.total == SumFor(p, g.key) && g.count == CountFor(p, g.key) && g.count > 0
  {
    var gs := GroupSums(p);
    GroupSumsDistinct(p);
    forall i | 0 <= i < |gs|
      ensures gs[i].total == SumFor(p, gs[i].key) && gs[i].count == CountFor(p, gs[i].key)
      ensures gs[i].count > 0
    {
      FindDistinct(gs, i);
      FindGroupSums(p, gs[i].key);
    }
  }

  lemma {:induction false} CountForPositive<K>(p: seq<(K, int)>, i: nat)
    requires i < |p|
    ensures CountFor(p, p[i].0) > 0
  {
    if i < |p| - 1 {
      assert p[..|p| - 1][i] == p[i];
      CountForPositive(p[..|p| - 1], i);
    }
  }

  /** Every key that occurs has a group. */
  lemma GroupSumsComplete<K>(p: seq<(K, int)>, i: nat)
    requires i < |p|
    ensures exists j :: 0 <= j < |GroupSums(p)| && GroupSums(p)[j].key == p[i].0
  {
    CountForPositive(p, i);
    FindGroupSums(p, p[i].0);
    var gs := GroupSums(p);
    var j := FindIndex(gs, p[i].0);
    assert j < |gs|;
  }

  lemma AddToTotals<K>(gs: seq<Group<K>>, k: K, v: int)
    ensures Totals(AddTo(gs, k, v)) == Totals(gs) + v
    ensures Counts(AddTo(gs, k, v)) == Counts(gs) + 1
  {
    var j := FindIndex(gs, k);
    if j < |gs| {
      var g := gs[j].(total := gs[j].total + v, count := gs[j].count + 1);
      SumByUpdate(gs, j, g, (g: Group<K>) => g.total);
      SumByUpdate(gs, j, g, (g: Group<K>) => g.count);
    } else {
      SumByConcat(gs, [Group(k, v, 1)], (g: Group<K>) => g.total);
      SumByConcat(gs, [Group(k, v, 1)], (g: Group<K>) => g.count);
    }
  }

  /** Sum of all values of the pairs. */
  function SumAll<K>(p: seq<(K, int)>): int
  {
    if |p| == 0 then 0 else SumAll(p[..|p| - 1]) + p[|p| - 1].1
  }

  /** Grouping loses nothing: the groups' totals add up to the sum of all values and
      their counts to the number of pairs. */
  lemma {:induction false} GroupSumsTotals<K>(p: seq<(K, int)>)
    ensures Totals(GroupSums(p)) == SumAll(p)
    ensures Counts(GroupSums(p)) == |p|
  {
    if |p| > 0 {
      GroupSumsTotals(p[..|p| - 1]);
      AddToTotals(GroupSums(p[..|p| - 1]), p[|p| - 1].0, p[|p| - 1].1);
    }
  }
}
