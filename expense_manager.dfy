/** The expense manager page: the list loaded for the selected year (and month), the
    shown total, and the list updates the add, update and delete handlers make once
    the server has answered. Server answers are parameters: `None` is a request that
    failed and was caught. */
module ExpenseManager {
  import opened Util
  import opened Table

  datatype CategoryRef = CategoryRef(id: Id, name: string)

  /** An expense's `category` as the page receives it: populated by `getExpense` and
      `updateExpense`, a bare id in the document `addExpense` returns, and `null` once
      the populated category no longer exists. */
  datatype CategoryField = Populated(ref: CategoryRef) | Unpopulated(categoryId: Id) | NoCategory

  /** One expense as the page holds it. */
  datatype Entry = Entry(id: Id, amount: int, description: string, date: Date, category: CategoryField)

  const Other: string := "Khác"

  /** The table's category cell, `e.category?.name || "Khác"`: a bare id string has no
      `name`, so a freshly added expense shows "Khác" until the list is reloaded. */
  function CategoryCell(e: Entry): (n: string)
    ensures n != Other ==> e.category.Populated? && n == e.category.ref.name
    ensures e.category.Populated? && e.category.ref.name != "" ==> n == e.category.ref.name
    ensures !e.category.Populated? ==> n == Other
  {
    if e.category.Populated? && e.category.ref.name != "" then e.category.ref.name else Other
  }

  /** The form fields exactly as typed. */
  datatype Form = Form(amount: string, description: string, date: string, categoryId: string)

  const EmptyForm: Form := Form("", "", "", "")

  function InYear(year: int): Entry -> bool
  {
    (e: Entry) => e.date.year == year
  }

  /** The list shown after loading: the expenses dated in `year`, and in `month` too
      when a month is chosen, in the order the server sent them. */
  function Loaded(all: seq<Entry>, year: int, month: Option<int>): (r: seq<Entry>)
    ensures forall e :: e in r <==> (e in all && e.date.year == year && (Truthy(month) ==> e.date.month == month.value))
    ensures forall e :: (multiset(r)[e] ==
      if e.date.year == year && (Truthy(month) ==> e.date.month == month.value) then multiset(all)[e] else 0)
  {
    var byYear := Filter(all, InYear(year));
    if Truthy(month) then Filter(byYear, InMonth(month.value)) else byYear
  }

  function InMonth(month: int): Entry -> bool
  {
    (e: Entry) => e.date.month == month
  }

  function Without(id: Id): Entry -> bool
  {
    (e: Entry) => e.id != id
  }

  /** `expenses.filter(e => e._id !== id)`. */
  function WithoutId(es: seq<Entry>, id: Id): (r: seq<Entry>)
    ensures forall e :: e in r <==> e in es && e.id != id
  {
    if |es| == 0 then [] else (if es[0].id != id then [es[0]] else []) + WithoutId(es[1..], id)
  }

  function Amount(): Entry -> int
  {
    (e: Entry) => e.amount
  }

  /** The month and year the total request is scoped to: both must be truthy. */
  function TotalQuery(month: Option<int>, year: int): (q: Option<(int, int)>)
    ensures q.Some? <==> Truthy(month) && year != 0
    ensures q.Some? ==> q.value == (month.value, year)
  {
    if Truthy(month) && year != 0 then Some((month.value, year)) else None
  }

  class Page {
    var expenses: seq<Entry>
    var categories: seq<CategoryRef>
    var form: Form
    var editingId: Option<Id>
    var showEditModal: bool
    var showDeleteModal: bool
    var deletingId: Option<Id>
    var total: int
    var selectedMonth: Option<int>
    var selectedYear: int

    /** The initial state, for the current year. */
    constructor (currentYear: int)
      ensures expenses == [] && categories == [] && form == EmptyForm && total == 0
      ensures editingId.None? && deletingId.None? && !showEditModal && !showDeleteModal
      ensures selectedMonth.None? && selectedYear == currentYear
    {
      expenses := [];
      categories := [];
      form := EmptyForm;
      editingId := None;
      showEditModal := false;
      showDeleteModal := false;
      deletingId := None;
      total := 0;
      selectedMonth := None;
      selectedYear := currentYear;
    }

    /** The load effect: the list is set from the expenses response; the categories and
        the total (the sum of the loaded amounts) only once the categories response
        has arrived too. */
    method Load(expensesResp: Option<seq<Entry>>, categoriesResp: Option<seq<CategoryRef>>)
      modifies this
      ensures expensesResp.None? ==> expenses == old(expenses) && categories == old(categories) && total == old(total)
      ensures expensesResp.Some? ==> expenses == Loaded(expensesResp.value, selectedYear, selectedMonth)
      ensures expensesResp.Some? && categoriesResp.Some? ==>
        categories == categoriesResp.value && total == SumBy(expenses, Amount())
      ensures expensesResp.None? || categoriesResp.None? ==> categories == old(categories) && total == old(total)
      ensures form == old(form) && editingId == old(editingId) && deletingId == old(deletingId)
      ensures showEditModal == old(showEditModal) && showDeleteModal == old(showDeleteModal)
      ensures selectedMonth == old(selectedMonth) && selectedYear == old(selectedYear)
    {
      if expensesResp.None? {
        return;
      }
      var data := Loaded(expensesResp.value, selectedYear, selectedMonth);
      expenses := data;
      if categoriesResp.None? {
        return;
      }
      categories := categoriesResp.value;
      total := SumBy(data, Amount());
    }

    /** `handleAdd`: the record the server returns (whose category `addExpense` leaves
        `Unpopulated`) is appended; the total becomes the server's total and the form
        is cleared only when that request succeeds too. */
    method HandleAdd(added: Option<Entry>, totalResp: Option<int>)
      modifies this
      ensures added.None? ==> expenses == old(expenses) && total == old(total) && form == old(form)
      ensures added.Some? ==> expenses == old(expenses) + [added.value]
      ensures added.Some? && totalResp.Some? ==> total == totalResp.value && form == EmptyForm
      ensures added.None? || totalResp.None? ==> total == old(total) && form == old(form)
      ensures categories == old(categories) && editingId == old(editingId) && deletingId == old(deletingId)
      ensures showEditModal == old(showEditModal) && showDeleteModal == old(showDeleteModal)
      ensures selectedMonth == old(selectedMonth) && selectedYear == old(selectedYear)
    {
      if added.None? {
        return;
      }
      expenses := expenses + [added.value];
      if totalResp.None? {
        return;
      }
      total := totalResp.value;
      form := EmptyForm;
    }

    /** `handleUpdate(id)`: every entry with this id becomes the returned record; then
        the server's total, and the editing state is cleared. */
    method HandleUpdate(id: Id, updated: Option<Entry>, totalResp: Option<int>)
      modifies this
      ensures updated.None? ==> expenses == old(expenses)
      ensures updated.Some? ==> (|expenses| == |old(expenses)| &&
        forall i :: 0 <= i < |expenses| ==> expenses[i] == if old(expenses)[i].id == id then updated.value else old(expenses)[i])
      ensures updated.Some? && totalResp.Some? ==>
        total == totalResp.value && editingId.None? && !showEditModal && form == EmptyForm
      ensures updated.None? || totalResp.None? ==>
        total == old(total) && editingId == old(editingId) && showEditModal == old(showEditModal) && form == old(form)
      ensures categories == old(categories) && deletingId == old(deletingId) && showDeleteModal == old(showDeleteModal)
      ensures selectedMonth == old(selectedMonth) && selectedYear == old(selectedYear)
    {
      if updated.None? {
        return;
      }
      expenses := ReplaceWhere(expenses, (e: Entry) => e.id == id, updated.value);
      if totalResp.None? {
        return;
      }
      total := totalResp.value;
      editingId := None;
      showEditModal := false;
      form := EmptyForm;
    }

    /** `confirmDelete`: nothing without a pending id; once the server has deleted it,
        the entries with that id are dropped, then the server's total, and the pending
        id is cleared. */
    method ConfirmDelete(deleted: bool, totalResp: Option<int>)
      modifies this
      ensures old(deletingId).None? || !deleted ==> (expenses == old(expenses) && total == old(total) &&
        deletingId == old(deletingId) && showDeleteModal == old(showDeleteModal))
      ensures old(deletingId).Some? && deleted ==> expenses == WithoutId(old(expenses), old(deletingId).value)
      ensures old(deletingId).Some? && deleted && totalResp.Some? ==>
        total == totalResp.value && deletingId.None? && !showDeleteModal
      ensures totalResp.None? ==> total == old(total) && deletingId == old(deletingId) && showDeleteModal == old(showDeleteModal)
      ensures categories == old(categories) && form == old(form) && editingId == old(editingId)
      ensures showEditModal == old(showEditModal)
      ensures selectedMonth == old(selectedMonth) && selectedYear == old(selectedYear)
    {
      if deletingId.Some? && deleted {
        expenses := WithoutId(expenses, deletingId.value);
        if totalResp.Some? {
          total := totalResp.value;
          deletingId := None;
          showDeleteModal := false;
        }
      }
    }
  }

  /** The delete keeps exactly the other entries, in order and with their
      multiplicity: it is the generic filter with the id test. */
  lemma {:induction false} WithoutIdIsFilter(es: seq<Entry>, id: Id)
    ensures WithoutId(es, id) == Filter(es, Without(id))
    ensures forall e :: multiset(WithoutId(es, id))[e] == if e.id != id then multiset(es)[e] else 0
  {
    if |es| > 0 {
      WithoutIdIsFilter(es[1..], id);
    }
  }

  function Ids(es: seq<Entry>): seq<Id>
  {
    if |es| == 0 then [] else [es[0].id] + Ids(es[1..])
  }

  /** The delete drops one entry for each occurrence of the id. */
  lemma {:induction false} DeleteCount(es: seq<Entry>, id: Id)
    ensures |WithoutId(es, id)| == |es| - multiset(Ids(es))[id]
  {
    if |es| > 0 {
      DeleteCount(es[1..], id);
    }
  }
}
