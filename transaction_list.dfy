/** The transaction table of the monthly report (transactions carry their category as
    a plain name): the over-limit map built from the category data, and one row per
    transaction flagged by that map. */
module TransactionList {
  import opened Util

  datatype Tx = Tx(date: string, category: string, amount: int, month: int, year: int)

  datatype CategoryData = CategoryData(name: string, spent: int, limit: int)

  /** One rendered row: the transaction and whether it is shown as over the limit. */
  datatype RowView = RowView(tx: Tx, over: bool)

  /** Reference definition: the absolute amounts of the transactions named `name`. */
  function SpentOn(all: seq<Tx>, name: string): int
  {
    SumBy(all, (tx: Tx) => if tx.category == name then Abs(tx.amount) else 0)
  }

  function Named(name: string): Tx -> bool
  {
    (tx: Tx) => tx.category == name
  }

  /** `all.filter(tx => tx.category === name).reduce((s, tx) => s + Math.abs(tx.amount), 0)`. */
  function SpentByFilter(all: seq<Tx>, name: string): (s: int)
    ensures s == SpentOn(all, name)
  {
    SumByFilter(all, Named(name), (tx: Tx) => Abs(tx.amount), (tx: Tx) => if tx.category == name then Abs(tx.amount) else 0);
    SumBy(Filter(all, Named(name)), (tx: Tx) => Abs(tx.amount))
  }

  /** The limit of the last category entry with this name, the one whose assignment to
      `map[cat.name]` is not overwritten. */
  function LastLimit(cats: seq<CategoryData>, name: string): (l: Option<int>)
    ensures l.None? <==> forall i :: 0 <= i < |cats| ==> cats[i].name != name
    ensures l.Some? ==> exists i :: (0 <= i < |cats| && cats[i].name == name && cats[i].limit == l.value &&
      forall j :: i < j < |cats| ==> cats[j].name != name)
  {
    if |cats| == 0 then None
    else if cats[|cats| - 1].name == name then Some(cats[|cats| - 1].limit)
    else
      var l := LastLimit(cats[..|cats| - 1], name);
      assert forall i :: 0 <= i < |cats| - 1 ==> cats[..|cats| - 1][i] == cats[i];
      l
  }

  /** The `categoryData.reduce` that fills `map[cat.name] = spent > cat.limit`, with the
      spending of a name given by `spentOf`. */
  method BuildOverLimitMap(cats: seq<CategoryData>, spentOf: string -> int) returns (m: map<string, bool>)
    ensures forall n :: n in m <==> LastLimit(cats, n).Some?
    ensures forall n :: n in m ==> m[n] == (spentOf(n) > LastLimit(cats, n).value)
  {
    m := map[];
    var i := 0;
    while i < |cats|
      invariant 0 <= i <= |cats|
      invariant Agrees(m, cats[..i], spentOf)
    {
      var cat := cats[i];
      AgreesStep(m, cats, i, spentOf);
      m := m[cat.name := spentOf(cat.name) > cat.limit];
      i := i + 1;
    }
    assert cats[..|cats|] == cats;
  }

  /** The map holds exactly the listed names, each flagged by its last limit. */
  ghost predicate Agrees(m: map<string, bool>, cats: seq<CategoryData>, spentOf: string -> int)
  {
    (forall n :: n in m <==> LastLimit(cats, n).Some?) &&
    (forall n :: n in m ==> m[n] == (spentOf(n) > LastLimit(cats, n).value))
  }

  /** One assignment `map[cat.name] = ...` keeps the map in step with the entries read. */
  lemma AgreesStep(m: map<string, bool>, cats: seq<CategoryData>, i: nat, spentOf: string -> int)
    requires i < |cats| && Agrees(m, cats[..i], spentOf)
    ensures Agrees(m[cats[i].name := spentOf(cats[i].name) > cats[i].limit], cats[..i + 1], spentOf)
  {
    LastLimitStep(cats, i);
  }

  /** One more entry overrides the limit of its own name and leaves the others. */
  lemma LastLimitStep(cats: seq<CategoryData>, i: nat)
    requires i < |cats|
    ensures forall n :: LastLimit(cats[..i + 1], n) == if cats[i].name == n then Some(cats[i].limit) else LastLimit(cats[..i], n)
  {
    var c := cats[..i + 1];
    assert c[..|c| - 1] == cats[..i] && c[|c| - 1] == cats[i];
    forall n
      ensures LastLimit(c, n) == if cats[i].name == n then Some(cats[i].limit) else LastLimit(cats[..i], n)
    {
    }
  }

  /** `overLimitMap` of this table. */
  method OverLimitMap(cats: seq<CategoryData>, all: seq<Tx>) returns (m: map<string, bool>)
    ensures forall n :: n in m <==> exists i :: 0 <= i < |cats| && cats[i].name == n
    ensures forall n :: n in m ==> m[n] == (SpentOn(all, n) > LastLimit(cats, n).value)
  {
    m := BuildOverLimitMap(cats, (n: string) => SpentByFilter(all, n));
  }

  /** `overLimitMap[name] || false`. */
  function Flag(m: map<string, bool>, name: string): (f: bool)
    ensures f <==> name in m && m[name]
  {
    if name in m then m[name] else false
  }

  function Rows(txs: seq<Tx>, m: map<string, bool>): (rows: seq<RowView>)
    ensures |rows| == |txs|
    ensures forall i :: 0 <= i < |txs| ==> rows[i].tx == txs[i] && rows[i].over == Flag(m, txs[i].category)
  {
    seq(|txs|, i requires 0 <= i < |txs| => RowView(txs[i], Flag(m, txs[i].category)))
  }

  /** With the map as built, a row is flagged exactly when its category is a listed name
      whose spending is above its (last) limit; a name that is not listed is never
      flagged, and spending equal to the limit is not flagged. */
  lemma RowFlagMeansOverLimit(cats: seq<CategoryData>, all: seq<Tx>, m: map<string, bool>, tx: Tx)
    requires forall n :: n in m <==> exists i :: 0 <= i < |cats| && cats[i].name == n
    requires forall n :: n in m ==> m[n] == (SpentOn(all, n) > LastLimit(cats, n).value)
    ensures Flag(m, tx.category) <==>
      LastLimit(cats, tx.category).Some? && SpentOn(all, tx.category) > LastLimit(cats, tx.category).value
    ensures (forall i :: 0 <= i < |cats| ==> cats[i].name != tx.category) ==> !Flag(m, tx.category)
  {
    if tx.category in m {
      var i :| 0 <= i < |cats| && cats[i].name == tx.category;
    }
  }
}
