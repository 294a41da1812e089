/** The budget controller: per-category spending limits for one month of one year,
    kept unique per (category, month, year) by the check `addBudget` makes before it
    inserts. */
module BudgetStore {
  import opened Util
  import opened Table
  import opened Http

  datatype Budget = Budget(category: Id, limit: int, month: int, year: int)

  /** The `findOne({ category, month, year })` filter. */
  function SlotFilter(category: Id, month: int, year: int): Budget -> bool
  {
    (b: Budget) => b.category == category && b.month == month && b.year == year
  }

  /** The `find({ month, year })` filter. */
  function MonthFilter(month: int, year: int): Budget -> bool
  {
    (b: Budget) => b.month == month && b.year == year
  }

  /** No two budgets share a (category, month, year) slot. */
  ghost predicate SlotsUnique(t: map<Id, Budget>)
  {
    forall j, k :: j in t && k in t && j != k ==>
      !(t[j].category == t[k].category && t[j].month == t[k].month && t[j].year == t[k].year)
  }

  /** Inserting under a fresh id a budget whose slot no budget holds keeps the slots unique. */
  lemma InsertKeepsSlotsUnique(t: map<Id, Budget>, n: Id, b: Budget)
    requires SlotsUnique(t) && forall k :: k in t ==> k < n
    requires FirstWhere(t, n, SlotFilter(b.category, b.month, b.year)).None?
    ensures SlotsUnique(t[n := b])
  {
    forall k | k in t
      ensures !(t[k].category == b.category && t[k].month == b.month && t[k].year == b.year)
    {
      assert !SlotFilter(b.category, b.month, b.year)(t[k]);
    }
  }

  /** All four fields of the request body are truthy. */
  predicate Complete(categoryId: Option<Id>, limit: Option<int>, month: Option<int>, year: Option<int>)
  {
    categoryId.Some? && Truthy(limit) && Truthy(month) && Truthy(year)
  }

  /** The `{ limit, month, year }` update document: a key absent from the body is
      dropped, so that field keeps its value; the category is never touched. */
  function Patch(b: Budget, limit: Option<int>, month: Option<int>, year: Option<int>): Budget
  {
    Budget(b.category,
           if limit.Some? then limit.value else b.limit,
           if month.Some? then month.value else b.month,
           if year.Some? then year.value else b.year)
  }

  class Budgets {
    var table: map<Id, Budget>
    var nextId: Id

    ghost predicate Valid()
      reads this
    {
      forall k :: k in table ==> k < nextId
    }

    constructor ()
      ensures Valid() && table == map[] && nextId == 0
    {
      table := map[];
      nextId := 0;
    }

    /** `addBudget`: 400 when a field is falsy (a limit of 0 included), 500 when the
        database fails, 409 with the id of the budget already holding the slot, and
        otherwise 201 with the one new budget. */
    method AddBudget(categoryId: Option<Id>, limit: Option<int>, month: Option<int>, year: Option<int>,
                     dbUp: bool) returns (r: Reply<Row<Budget>>)
      requires Valid()
      modifies this
      ensures Valid()
      ensures r == BadRequest(MissingField) <==> !Complete(categoryId, limit, month, year)
      ensures r == ServerError <==> Complete(categoryId, limit, month, year) && !dbUp
      ensures r.Conflict? <==> (Complete(categoryId, limit, month, year) && dbUp &&
        FirstWhere(old(table), old(nextId), SlotFilter(categoryId.value, month.value, year.value)).Some?)
      ensures r.Conflict? ==> (r.existing in old(table) &&
        old(table)[r.existing] == Budget(categoryId.value, old(table)[r.existing].limit, month.value, year.value))
      ensures r.Created? <==> (Complete(categoryId, limit, month, year) && dbUp &&
        FirstWhere(old(table), old(nextId), SlotFilter(categoryId.value, month.value, year.value)).None?)
      ensures r.Created? ==> (
        r.body == Row(old(nextId), Budget(categoryId.value, limit.value, month.value, year.value)) &&
        table == old(table)[old(nextId) := r.body.doc] && nextId == old(nextId) + 1)
      ensures !r.Created? ==> table == old(table) && nextId == old(nextId)
      ensures !r.Ok? && !r.NotFound?
      ensures SlotsUnique(old(table)) ==> SlotsUnique(table)
    {
      if !Complete(categoryId, limit, month, year) {
        return BadRequest(MissingField);
      }
      if !dbUp {
        return ServerError;
      }
      var existing := FirstWhere(table, nextId, SlotFilter(categoryId.value, month.value, year.value));
      if existing.Some? {
        return Conflict(existing.value);
      }
      var b := Budget(categoryId.value, limit.value, month.value, year.value);
      if SlotsUnique(table) {
        InsertKeepsSlotsUnique(table, nextId, b);
      }
      table := table[nextId := b];
      r := Created(Row(nextId, b));
      nextId := nextId + 1;
    }

    /** `getBudgetsByMonth`: exactly the budgets of that month and year, in natural order. */
    function GetBudgetsByMonth(month: int, year: int, dbUp: bool): (r: Reply<seq<Row<Budget>>>)
      requires Valid()
      reads this
      ensures r.ServerError? <==> !dbUp
      ensures r.Ok? <==> dbUp
      ensures r.Ok? ==> forall row :: row in r.body <==>
        row.id in table && table[row.id] == row.doc && row.doc.month == month && row.doc.year == year
      ensures r.Ok? ==> forall i, j :: 0 <= i < j < |r.body| ==> r.body[i].id < r.body[j].id
    {
      if dbUp then Ok(Ascending(table, nextId, MonthFilter(month, year))) else ServerError
    }

    /** `updateBudget`: 404 for an unknown id; otherwise the given limit, month and year
        replace that budget's, the category stays, and no slot check is made. */
    method UpdateBudget(id: Id, limit: Option<int>, month: Option<int>, year: Option<int>, dbUp: bool)
      returns (r: Reply<Row<Budget>>)
      requires Valid()
      modifies this
      ensures Valid() && nextId == old(nextId)
      ensures r == ServerError <==> !dbUp
      ensures r == NotFound(BudgetEntity) <==> dbUp && id !in old(table)
      ensures r.Ok? <==> dbUp && id in old(table)
      ensures r.Ok? ==> (r.body == Row(id, Patch(old(table)[id], limit, month, year)) &&
        r.body.doc.category == old(table)[id].category &&
        table == old(table)[id := r.body.doc])
      ensures !r.Ok? ==> table == old(table)
    {
      if !dbUp {
        return ServerError;
      }
      if id !in table {
        return NotFound(BudgetEntity);
      }
      var b := Patch(table[id], limit, month, year);
      table := table[id := b];
      r := Ok(Row(id, b));
    }

    /** `deleteBudget`: 404 for an unknown id; otherwise exactly that budget goes. */
    method DeleteBudget(id: Id, dbUp: bool) returns (r: Reply<()>)
      requires Valid()
      modifies this
      ensures Valid() && nextId == old(nextId)
      ensures r == ServerError <==> !dbUp
      ensures r == NotFound(BudgetEntity) <==> dbUp && id !in old(table)
      ensures r.Ok? <==> dbUp && id in old(table)
      ensures r.Ok? ==> table == old(table) - {id}
      ensures !r.Ok? ==> table == old(table)
    {
      if !dbUp {
        return ServerError;
      }
      if id !in table {
        return NotFound(BudgetEntity);
      }
      table := table - {id};
      r := Ok(());
    }
  }

  /** Because `updateBudget` makes no slot check, moving a budget into a month already
      covered for its category leaves two budgets in one slot. */
  lemma UpdateCanDuplicateSlot()
    ensures var t := map[0 := Budget(7, 100, 1, 2025), 1 := Budget(7, 200, 2, 2025)];
      SlotsUnique(t) && !SlotsUnique(t[1 := Patch(t[1], None, Some(1), None)])
  {
    var t := map[0 := Budget(7, 100, 1, 2025), 1 := Budget(7, 200, 2, 2025)];
    var t' := t[1 := Patch(t[1], None, Some(1), None)];
    assert t'[0].month == t'[1].month;
  }
}
