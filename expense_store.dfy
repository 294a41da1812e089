/** The expense controller: amounts spent in a category, with the required-field and
    amount guards of `addExpense`, the category lookup, and the aggregate total. */
module ExpenseStore {
  import opened Util
  import opened Table
  import opened Http
  import opened AmountFormat
  import opened CategoryStore

  datatype Expense = Expense(amount: int, category: Id, description: string, date: Date)

  /** The body of `getTotalExpense` and `getTotalIncome`. */
  datatype TotalBody = TotalBody(total: int, suffix: Suffix)

  /** `expenses.reduce((acc, item) => acc + item.amount, 0)` over the documents below `n`. */
  function Total(t: map<Id, Expense>, n: nat): int
  {
    SumRows(t, n, (e: Expense) => e.amount)
  }

  /** The three fields checked first are all present. */
  predicate Described(categoryId: Option<Id>, description: string, date: Option<Date>)
  {
    categoryId.Some? && description != "" && date.Some?
  }

  /** `amount <= 0 || typeof amount !== "number"` fails. */
  predicate PositiveAmount(amount: Option<int>)
  {
    amount.Some? && amount.value > 0
  }

  /** The `{ amount, category, description, date }` update document: a key absent from
      the body keeps that field's value. */
  function Patch(e: Expense, amount: Option<int>, categoryId: Option<Id>, description: Option<string>,
                 date: Option<Date>): Expense
  {
    Expense(if amount.Some? then amount.value else e.amount,
            if categoryId.Some? then categoryId.value else e.category,
            if description.Some? then description.value else e.description,
            if date.Some? then date.value else e.date)
  }

  class Expenses {
    var table: map<Id, Expense>
    var nextId: Id

    ghost predicate Valid()
      reads this
    {
      forall k :: k in table ==> k < nextId
    }

    constructor ()
      ensures Valid() && table == map[] && nextId == 0
    {
      table := map[];
      nextId := 0;
    }

    /** `addExpense`: the required fields are checked before the amount, both before
        the database is asked; an unknown category is 404; otherwise 201 with the one
        new expense, and the total grows by its amount. */
    method AddExpense(amount: Option<int>, categoryId: Option<Id>, description: string, date: Option<Date>,
                      cats: Categories, dbUp: bool) returns (r: Reply<Row<Expense>>)
      requires Valid()
      modifies this
      ensures Valid()
      ensures r == BadRequest(MissingField) <==> !Described(categoryId, description, date)
      ensures r == BadRequest(BadAmount) <==> Described(categoryId, description, date) && !PositiveAmount(amount)
      ensures r == ServerError <==>
        (Described(categoryId, description, date) && PositiveAmount(amount) && !dbUp)
      ensures r == NotFound(CategoryEntity) <==> (Described(categoryId, description, date) &&
        PositiveAmount(amount) && dbUp && categoryId.value !in cats.table)
      ensures r.Created? <==> (Described(categoryId, description, date) &&
        PositiveAmount(amount) && dbUp && categoryId.value in cats.table)
      ensures r.Created? ==> (
        r.body == Row(old(nextId), Expense(amount.value, categoryId.value, description, date.value)) &&
        table == old(table)[old(nextId) := r.body.doc] && nextId == old(nextId) + 1 &&
        Total(table, nextId) == Total(old(table), old(nextId)) + amount.value)
      ensures !r.Created? ==> table == old(table) && nextId == old(nextId)
    {
      if !Described(categoryId, description, date) {
        return BadRequest(MissingField);
      }
      if !PositiveAmount(amount) {
        return BadRequest(BadAmount);
      }
      if !dbUp {
        return ServerError;
      }
      if categoryId.value !in cats.table {
        return NotFound(CategoryEntity);
      }
      var e := Expense(amount.value, categoryId.value, description, date.value);
      SumRowsInsert(table, nextId, e, (e: Expense) => e.amount);
      table := table[nextId := e];
      r := Created(Row(nextId, e));
      nextId := nextId + 1;
    }

    /** `updateExpense`: a category that is given must exist, then the expense must;
        the given fields replace that expense's and the amount is not re-checked. */
    method UpdateExpense(id: Id, amount: Option<int>, categoryId: Option<Id>, description: Option<string>,
                         date: Option<Date>, cats: Categories, dbUp: bool) returns (r: Reply<Row<Expense>>)
      requires Valid()
      modifies this
      ensures Valid() && nextId == old(nextId)
      ensures r == ServerError <==> !dbUp
      ensures r == NotFound(CategoryEntity) <==> dbUp && categoryId.Some? && categoryId.value !in cats.table
      ensures r == NotFound(ExpenseEntity) <==>
        (dbUp && !(categoryId.Some? && categoryId.value !in cats.table) && id !in old(table))
      ensures r.Ok? <==> (dbUp && !(categoryId.Some? && categoryId.value !in cats.table) && id in old(table))
      ensures r.Ok? ==> (r.body == Row(id, Patch(old(table)[id], amount, categoryId, description, date)) &&
        table == old(table)[id := r.body.doc] &&
        Total(table, nextId) == Total(old(table), nextId) - old(table)[id].amount + r.body.doc.amount)
      ensures !r.Ok? ==> table == old(table)
    {
      if !dbUp {
        return ServerError;
      }
      if categoryId.Some? && categoryId.value !in cats.table {
        return NotFound(CategoryEntity);
      }
      if id !in table {
        return NotFound(ExpenseEntity);
      }
      var e := Patch(table[id], amount, categoryId, description, date);
      SumRowsUpdate(table, nextId, id, e, (e: Expense) => e.amount);
      table := table[id := e];
      r := Ok(Row(id, e));
    }

    /** `deleteExpense`: 404 for an unknown id; otherwise exactly that expense goes and
        the total drops by its amount. */
    method DeleteExpense(id: Id, dbUp: bool) returns (r: Reply<()>)
      requires Valid()
      modifies this
      ensures Valid() && nextId == old(nextId)
      ensures r == ServerError <==> !dbUp
      ensures r == NotFound(ExpenseEntity) <==> dbUp && id !in old(table)
      ensures r.Ok? <==> dbUp && id in old(table)
      ensures r.Ok? ==> (table == old(table) - {id} &&
        Total(table, nextId) == Total(old(table), nextId) - old(table)[id].amount)
      ensures !r.Ok? ==> table == old(table)
    {
      if !dbUp {
        return ServerError;
      }
      if id !in table {
        return NotFound(ExpenseEntity);
      }
      SumRowsRemove(table, nextId, id, (e: Expense) => e.amount);
      table := table - {id};
      r := Ok(());
    }

    /** `getTotalExpense`: the sum of every stored amount with its display suffix. */
    function GetTotalExpense(dbUp: bool): (r: Reply<TotalBody>)
      reads this
      ensures r.Ok? <==> dbUp
      ensures r.ServerError? <==> !dbUp
      ensures r.Ok? ==> r.body.total == Total(table, nextId) && r.body.suffix == SuffixOf(r.body.total)
    {
      if dbUp then Ok(TotalBody(Total(table, nextId), SuffixOf(Total(table, nextId)))) else ServerError
    }
  }
}
