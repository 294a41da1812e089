/** The transaction table over transactions whose category is a populated reference
    that may be absent: the same over-limit map, with rows falling back to the name
    "Khác" when the reference is missing or its name is empty. */
module TransactionTable {
  import opened Util
  import opened TransactionList

  datatype CategoryRef = CategoryRef(id: Option<string>, name: string)

  datatype RefTx = RefTx(date: string, category: Option<CategoryRef>, amount: int, month: int, year: int)

  datatype RefRow = RefRow(tx: RefTx, categoryName: string, over: bool)

  const Other: string := "Khác"

  /** `tx.category?.name === name`: a missing reference matches no name. */
  function RefNamed(name: string): RefTx -> bool
  {
    (tx: RefTx) => tx.category.Some? && tx.category.value.name == name
  }

  /** Reference definition: the absolute amounts of the transactions whose reference
      carries this name. */
  function RefSpentOn(all: seq<RefTx>, name: string): int
  {
    SumBy(all, (tx: RefTx) => if tx.category.Some? && tx.category.value.name == name then Abs(tx.amount) else 0)
  }

  function RefSpentByFilter(all: seq<RefTx>, name: string): (s: int)
    ensures s == RefSpentOn(all, name)
  {
    SumByFilter(all, RefNamed(name), (tx: RefTx) => Abs(tx.amount),
      (tx: RefTx) => if tx.category.Some? && tx.category.value.name == name then Abs(tx.amount) else 0);
    SumBy(Filter(all, RefNamed(name)), (tx: RefTx) => Abs(tx.amount))
  }

  method OverLimitMapOf(cats: seq<CategoryData>, all: seq<RefTx>) returns (m: map<string, bool>)
    ensures forall n :: n in m <==> exists i :: 0 <= i < |cats| && cats[i].name == n
    ensures forall n :: n in m ==> m[n] == (RefSpentOn(all, n) > LastLimit(cats, n).value)
  {
    m := BuildOverLimitMap(cats, (n: string) => RefSpentByFilter(all, n));
  }

  /** `tx.category?.name || "Khác"`. */
  function DisplayName(tx: RefTx): (n: string)
    ensures n == Other <==> tx.category.None? || tx.category.value.name in {"", Other}
    ensures n != Other ==> tx.category.Some? && n == tx.category.value.name
  {
    if tx.category.Some? && tx.category.value.name != "" then tx.category.value.name else Other
  }

  function RefRows(txs: seq<RefTx>, m: map<string, bool>): (rows: seq<RefRow>)
    ensures |rows| == |txs|
    ensures forall i :: 0 <= i < |txs| ==> (rows[i].tx == txs[i] && rows[i].categoryName == DisplayName(txs[i]) &&
      rows[i].over == Flag(m, DisplayName(txs[i])))
  {
    seq(|txs|, i requires 0 <= i < |txs| => RefRow(txs[i], DisplayName(txs[i]), Flag(m, DisplayName(txs[i]))))
  }

  /** A row with a named category is flagged exactly when that name is listed with
      spending above its limit. A row shown as "Khác" (no category, or one with an
      empty name) takes the flag of a category entry named "Khác", although the amount
      of a row without a category is counted under no name at all. */
  lemma RowFlagOfReference(cats: seq<CategoryData>, all: seq<RefTx>, m: map<string, bool>, tx: RefTx)
    requires forall n :: n in m <==> exists i :: 0 <= i < |cats| && cats[i].name == n
    requires forall n :: n in m ==> m[n] == (RefSpentOn(all, n) > LastLimit(cats, n).value)
    ensures tx.category.Some? && tx.category.value.name != "" ==>
      (Flag(m, DisplayName(tx)) <==> (LastLimit(cats, tx.category.value.name).Some? &&
        RefSpentOn(all, tx.category.value.name) > LastLimit(cats, tx.category.value.name).value))
    ensures DisplayName(tx) == Other ==>
      (Flag(m, DisplayName(tx)) <==> (LastLimit(cats, Other).Some? && RefSpentOn(all, Other) > LastLimit(cats, Other).value))
  {
    var n := DisplayName(tx);
    if n in m {
      var i :| 0 <= i < |cats| && cats[i].name == n;
    }
  }

  /** The amount of a transaction without a category is counted under no name. */
  lemma {:induction false} MissingCategoryCountsNowhere(all: seq<RefTx>, tx: RefTx, name: string)
    requires tx.category.None?
    ensures RefSpentOn(all + [tx], name) == RefSpentOn(all, name)
  {
    SumByConcat(all, [tx], (tx: RefTx) => if tx.category.Some? && tx.category.value.name == name then Abs(tx.amount) else 0);
  }
}
