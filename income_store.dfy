/** The income controller: titled incomes with a free-text category, listed newest
    first with a display suffix, and totalled. */
module IncomeStore {
  import opened Util
  import opened Table
  import opened Http
  import opened AmountFormat
  import ExpenseStore

  datatype Income = Income(title: string, amount: int, category: string, description: string, date: Date)

  /** One element of the `getIncomes` list: the document and its `formattedAmount` suffix. */
  datatype Listed = Listed(row: Row<Income>, suffix: Suffix)

  function Total(t: map<Id, Income>, n: nat): int
  {
    SumRows(t, n, (i: Income) => i.amount)
  }

  /** The four fields checked first are all present. */
  predicate Described(title: string, category: string, description: string, date: Option<Date>)
  {
    title != "" && category != "" && description != "" && date.Some?
  }

  class Incomes {
    var table: map<Id, Income>
    var nextId: Id

    ghost predicate Valid()
      reads this
    {
      forall k :: k in table ==> k < nextId
    }

    constructor ()
      ensures Valid() && table == map[] && nextId == 0
    {
      table := map[];
      nextId := 0;
    }

    /** `addIncome`: required fields, then the amount, then the save; success answers
        200 with a message rather than 201 with the document. */
    method AddIncome(title: string, amount: Option<int>, category: string, description: string,
                     date: Option<Date>, dbUp: bool) returns (r: Reply<()>)
      requires Valid()
      modifies this
      ensures Valid()
      ensures r == BadRequest(MissingField) <==> !Described(title, category, description, date)
      ensures r == BadRequest(BadAmount) <==>
        (Described(title, category, description, date) && !ExpenseStore.PositiveAmount(amount))
      ensures r == ServerError <==>
        (Described(title, category, description, date) && ExpenseStore.PositiveAmount(amount) && !dbUp)
      ensures r == Ok(()) <==>
        (Described(title, category, description, date) && ExpenseStore.PositiveAmount(amount) && dbUp)
      ensures r.Ok? ==> (table == old(table)[old(nextId) := Income(title, amount.value, category, description, date.value)] &&
        nextId == old(nextId) + 1 && Total(table, nextId) == Total(old(table), old(nextId)) + amount.value)
      ensures !r.Ok? ==> table == old(table) && nextId == old(nextId)
    {
      if !Described(title, category, description, date) {
        return BadRequest(MissingField);
      }
      if !ExpenseStore.PositiveAmount(amount) {
        return BadRequest(BadAmount);
      }
      if !dbUp {
        return ServerError;
      }
      var i := Income(title, amount.value, category, description, date.value);
      SumRowsInsert(table, nextId, i, (i: Income) => i.amount);
      table := table[nextId := i];
      nextId := nextId + 1;
      r := Ok(());
    }

    /** `getIncomes`: every income, newest first, each with the suffix of its amount. */
    function GetIncomes(dbUp: bool): (r: Reply<seq<Listed>>)
      requires Valid()
      reads this
      ensures r.Ok? <==> dbUp
      ensures r.ServerError? <==> !dbUp
      ensures r.Ok? ==> forall i :: 0 <= i < |r.body| ==> (r.body[i].row.id in table &&
        table[r.body[i].row.id] == r.body[i].row.doc && r.body[i].suffix == SuffixOf(r.body[i].row.doc.amount))
      ensures r.Ok? ==> forall k :: k in table ==> Listed(Row(k, table[k]), SuffixOf(table[k].amount)) in r.body
      ensures r.Ok? ==> forall i, j :: 0 <= i < j < |r.body| ==> r.body[i].row.id > r.body[j].row.id
    {
      if !dbUp then ServerError
      else
        var rows := NewestFirst(table, nextId);
        var listed := WithSuffix(rows);
        WithSuffixHas(rows, table);
        Ok(listed)
    }

    /** `deleteIncome`: 200 whether or not the id existed; afterwards it does not. */
    method DeleteIncome(id: Id, dbUp: bool) returns (r: Reply<()>)
      requires Valid()
      modifies this
      ensures Valid() && nextId == old(nextId)
      ensures r == ServerError <==> !dbUp
      ensures r.Ok? <==> dbUp
      ensures r.Ok? ==> table == old(table) - {id} && id !in table
      ensures r.Ok? && id in old(table) ==> Total(table, nextId) == Total(old(table), nextId) - old(table)[id].amount
      ensures r.Ok? && id !in old(table) ==> table == old(table)
      ensures !r.Ok? ==> table == old(table)
    {
      if !dbUp {
        return ServerError;
      }
      if id in table {
        SumRowsRemove(table, nextId, id, (i: Income) => i.amount);
      }
      table := table - {id};
      r := Ok(());
    }

    /** `getTotalIncome`: the sum of every stored amount with its display suffix. */
    function GetTotalIncome(dbUp: bool): (r: Reply<ExpenseStore.TotalBody>)
      reads this
      ensures r.Ok? <==> dbUp
      ensures r.ServerError? <==> !dbUp
      ensures r.Ok? ==> r.body.total == Total(table, nextId) && r.body.suffix == SuffixOf(r.body.total)
    {
      if dbUp then Ok(ExpenseStore.TotalBody(Total(table, nextId), SuffixOf(Total(table, nextId))))
      else ServerError
    }
  }

  /** `rows.map(item => ({ ...item, formattedAmount: formatAmount(item.amount) }))`. */
  function WithSuffix(rows: seq<Row<Income>>): (ls: seq<Listed>)
    ensures |ls| == |rows|
    ensures forall i :: 0 <= i < |rows| ==> ls[i] == Listed(rows[i], SuffixOf(rows[i].doc.amount))
  {
    seq(|rows|, i requires 0 <= i < |rows| => Listed(rows[i], SuffixOf(rows[i].doc.amount)))
  }

  /** Every row listed keeps its document, so every document's listing is present. */
  lemma WithSuffixHas(rows: seq<Row<Income>>, t: map<Id, Income>)
    requires forall k :: k in t ==> Row(k, t[k]) in rows
    ensures forall k :: k in t ==> Listed(Row(k, t[k]), SuffixOf(t[k].amount)) in WithSuffix(rows)
  {
    var ls := WithSuffix(rows);
    forall k | k in t
      ensures Listed(Row(k, t[k]), SuffixOf(t[k].amount)) in ls
    {
      var i :| 0 <= i < |rows| && rows[i] == Row(k, t[k]);
      assert ls[i] == Listed(Row(k, t[k]), SuffixOf(t[k].amount));
    }
  }
}
