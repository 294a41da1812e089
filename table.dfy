/** A MongoDB collection as the controllers use it: documents keyed by id. Ids are
    issued from a counter, so a smaller id means an earlier insertion; the natural
    order of `find()` is ascending id and `sort({ createdAt: -1 })` is descending id. */
module Table {
  import opened Util

  type Id = nat

  /** A document together with its `_id`. */
  datatype Row<V> = Row(id: Id, doc: V)

  /** `findOne(filter)` over the ids below `n`: the first document in natural order
      that satisfies the filter, or nothing. */
  function FirstWhere<V>(t: map<Id, V>, n: nat, p: V -> bool): (r: Option<Id>)
    ensures r.Some? ==> r.value in t && r.value < n && p(t[r.value])
    ensures r.Some? ==> forall k :: k in t && k < r.value ==> !p(t[k])
    ensures r.None? <==> forall k :: k in t && k < n ==> !p(t[k])
  {
    if n == 0 then None
    else match FirstWhere(t, n - 1, p)
      case Some(k) => Some(k)
      case None => if n - 1 in t && p(t[n - 1]) then Some(n - 1) else None
  }

  /** `find(filter)` in natural order: the matching documents below `n`, ascending id. */
  function Ascending<V>(t: map<Id, V>, n: nat, p: V -> bool): (rows: seq<Row<V>>)
    ensures forall i :: 0 <= i < |rows| ==>
      rows[i].id in t && rows[i].id < n && t[rows[i].id] == rows[i].doc && p(rows[i].doc)
    ensures forall i, j :: 0 <= i < j < |rows| ==> rows[i].id < rows[j].id
    ensures forall k :: k in t && k < n && p(t[k]) ==> Row(k, t[k]) in rows
  {
    if n == 0 then []
    else Ascending(t, n - 1, p) + (if n - 1 in t && p(t[n - 1]) then [Row(n - 1, t[n - 1])] else [])
  }

  /** `find().sort({ createdAt: -1 })`: every document below `n`, newest first. */
  function NewestFirst<V>(t: map<Id, V>, n: nat): (rows: seq<Row<V>>)
    ensures forall i :: 0 <= i < |rows| ==>
      rows[i].id in t && rows[i].id < n && t[rows[i].id] == rows[i].doc
    ensures forall i, j :: 0 <= i < j < |rows| ==> rows[i].id > rows[j].id
    ensures forall k :: k in t && k < n ==> Row(k, t[k]) in rows
  {
    if n == 0 then []
    else (if n - 1 in t then [Row(n - 1, t[n - 1])] else []) + NewestFirst(t, n - 1)
  }

  /** `docs.reduce((acc, d) => acc + f(d), 0)` over the documents below `n`. */
  function SumRows<V>(t: map<Id, V>, n: nat, f: V -> int): int
  {
    if n == 0 then 0 else SumRows(t, n - 1, f) + (if n - 1 in t then f(t[n - 1]) else 0)
  }

  /** Documents at or above `n` do not take part in the sum. */
  lemma {:induction false} SumRowsAbove<V>(t: map<Id, V>, n: nat, k: Id, v: V, f: V -> int)
    requires k >= n
    ensures SumRows(t[k := v], n, f) == SumRows(t, n, f)
    ensures SumRows(t - {k}, n, f) == SumRows(t, n, f)
  {
    if n > 0 {
      SumRowsAbove(t, n - 1, k, v, f);
    }
  }

  /** Inserting a document under a fresh id `n` adds its share to the total. */
  lemma SumRowsInsert<V>(t: map<Id, V>, n: nat, v: V, f: V -> int)
    requires forall k :: k in t ==> k < n
    ensures SumRows(t[n := v], n + 1, f) == SumRows(t, n, f) + f(v)
  {
    SumRowsAbove(t, n, n, v, f);
  }

  /** Replacing one document changes the total by the difference of the two shares. */
  lemma {:induction false} SumRowsUpdate<V>(t: map<Id, V>, n: nat, k: Id, v: V, f: V -> int)
    requires k in t && k < n
    ensures SumRows(t[k := v], n, f) == SumRows(t, n, f) - f(t[k]) + f(v)
  {
    if n - 1 == k {
      SumRowsAbove(t, n - 1, k, v, f);
    } else {
      SumRowsUpdate(t, n - 1, k, v, f);
    }
  }

  /** Removing one document takes its share off the total. */
  lemma {:induction false} SumRowsRemove<V>(t: map<Id, V>, n: nat, k: Id, f: V -> int)
    requires k in t && k < n
    ensures SumRows(t - {k}, n, f) == SumRows(t, n, f) - f(t[k])
  {
    if n - 1 == k {
      SumRowsAbove(t, n - 1, k, t[k], f);
    } else {
      SumRowsRemove(t, n - 1, k, f);
    }
  }
}
