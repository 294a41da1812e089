/** The figures the home dashboard derives for one selected year: the expenses of that
    year, their total, average, smallest and largest amount, the spending grouped by
    category name with the five largest groups, each budget's spending and percentage,
    and the remaining-budget message. */
module HomeDashboard {
  import opened Util
  import opened Table
  import opened Grouping
  import Stats

  datatype CategoryRef = CategoryRef(id: Id, name: string)

  /** An expense as the page receives it; `category` is absent when it was not populated. */
  datatype Transaction = Transaction(amount: int, date: Date, category: Option<CategoryRef>)

  /** A budget of one month as `by-month` returns it; `category` is absent when the
      populated category no longer exists (`populate` then yields `null`). */
  datatype BudgetView = BudgetView(id: Id, category: Option<CategoryRef>, limit: int, month: int, year: int)

  /** A budget with the two fields the page adds to it. */
  datatype BudgetWithSpent = BudgetWithSpent(budget: BudgetView, spent: int, percentage: real)

  const Other: string := "Khác"

  // ---------------------------------------------------------------------------
  // Year filter and summary figures

  function InYear(year: int): Transaction -> bool
  {
    (e: Transaction) => e.date.year == year
  }

  /** `expenses.filter(exp => new Date(exp.date).getFullYear() === year)`. */
  function FilteredExpenses(expenses: seq<Transaction>, year: int): (f: seq<Transaction>)
    ensures forall e :: e in f <==> e in expenses && e.date.year == year
    ensures forall e :: multiset(f)[e] == if e.date.year == year then multiset(expenses)[e] else 0
    ensures |f| <= |expenses|
  {
    Filter(expenses, InYear(year))
  }

  function TotalExpense(f: seq<Transaction>): int
  {
    SumBy(f, (e: Transaction) => e.amount)
  }

  /** `total / count`, or 0 for no expenses. */
  function AverageExpense(f: seq<Transaction>): (avg: real)
    ensures |f| == 0 ==> avg == 0.0
    ensures |f| > 0 ==> avg * (|f| as real) == TotalExpense(f) as real
  {
    if |f| > 0 then (TotalExpense(f) as real) / (|f| as real) else 0.0
  }

  function Amounts(f: seq<Transaction>): (a: seq<int>)
    ensures |a| == |f| && forall i :: 0 <= i < |f| ==> a[i] == f[i].amount
  {
    seq(|f|, i requires 0 <= i < |f| => f[i].amount)
  }

  /** `f.length ? Math.min(...f.map(e => e.amount)) : 0`. */
  function MinExpense(f: seq<Transaction>): (m: int)
    ensures |f| == 0 ==> m == 0
    ensures |f| > 0 ==> (exists i :: 0 <= i < |f| && f[i].amount == m) && forall i :: 0 <= i < |f| ==> m <= f[i].amount
  {
    MinOr0(Amounts(f))
  }

  /** `f.length ? Math.max(...f.map(e => e.amount)) : 0`. */
  function MaxExpense(f: seq<Transaction>): (m: int)
    ensures |f| == 0 ==> m == 0
    ensures |f| > 0 ==> (exists i :: 0 <= i < |f| && f[i].amount == m) && forall i :: 0 <= i < |f| ==> f[i].amount <= m
  {
    MaxOr0(Amounts(f))
  }

  // ---------------------------------------------------------------------------
  // Spending by category

  /** `exp.category?.name || "Khác"`. */
  function CategoryName(e: Transaction): (n: string)
    ensures n == Other <==> e.category.None? || e.category.value.name == "" || e.category.value.name == Other
    ensures n != Other ==> e.category.Some? && n == e.category.value.name
  {
    if e.category.Some? && e.category.value.name != "" then e.category.value.name else Other
  }

  /** The (name, amount) pair each expense contributes to its group. */
  function Pairs(f: seq<Transaction>): (p: seq<(string, int)>)
    ensures |p| == |f| && forall i :: 0 <= i < |f| ==> p[i] == (CategoryName(f[i]), f[i].amount)
  {
    seq(|f|, i requires 0 <= i < |f| => (CategoryName(f[i]), f[i].amount))
  }

  lemma PairsPrefix(f: seq<Transaction>, i: nat)
    requires i <= |f|
    ensures Pairs(f)[..i] == Pairs(f[..i])
  {
  }

  /** Grouping loses no amount: the values of the pairs add up to the total. */
  lemma {:induction false} PairsSum(f: seq<Transaction>)
    ensures SumAll(Pairs(f)) == TotalExpense(f)
  {
    if |f| > 0 {
      var init := f[..|f| - 1];
      PairsSum(init);
      PairsPrefix(f, |f| - 1);
      assert f == init + [f[|f| - 1]];
      SumByConcat(init, [f[|f| - 1]], (e: Transaction) => e.amount);
    }
  }

  /** The `reduce` that builds `expensesByCategory`: for each expense, add to the entry
      of its category name (the first `find` returns) or push a new entry. */
  method ExpensesByCategory(f: seq<Transaction>) returns (groups: seq<Group<string>>)
    ensures groups == GroupSums(Pairs(f))
    ensures DistinctKeys(groups)
    ensures forall i :: 0 <= i < |groups| ==>
      groups[i].total == SumFor(Pairs(f), groups[i].key) && groups[i].count == CountFor(Pairs(f), groups[i].key) && groups[i].count > 0
    ensures forall e :: e in f ==> exists j :: 0 <= j < |groups| && groups[j].key == CategoryName(e)
    ensures Counts(groups) == |f| && Totals(groups) == TotalExpense(f)
  {
    groups := [];
    var i := 0;
    while i < |f|
      invariant 0 <= i <= |f|
      invariant groups == GroupSums(Pairs(f)[..i])
    {
      var name := CategoryName(f[i]);
      var j := FindIndex(groups, name);
      if j < |groups| {
        groups := groups[j := groups[j].(total := groups[j].total + f[i].amount, count := groups[j].count + 1)];
      } else {
        groups := groups + [Group(name, f[i].amount, 1)];
      }
      assert Pairs(f)[..i + 1][..i] == Pairs(f)[..i];
      i := i + 1;
    }
    assert Pairs(f)[..|f|] == Pairs(f);
    GroupSumsDistinct(Pairs(f));
    GroupSumsEntries(Pairs(f));
    GroupSumsTotals(Pairs(f));
    PairsSum(f);
    forall e | e in f
      ensures exists j :: 0 <= j < |groups| && groups[j].key == CategoryName(e)
    {
      var k :| 0 <= k < |f| && f[k] == e;
      GroupSumsComplete(Pairs(f), k);
    }
  }

  ghost predicate Descending(s: seq<Group<string>>)
  {
    forall p, q :: 0 <= p < q < |s| ==> s[p].total >= s[q].total
  }

  /** The groups of total `t`, in their order in `s`: `s.filter(g => g.total === t)`. */
  function Ties(s: seq<Group<string>>, t: int): seq<Group<string>>
  {
    if |s| == 0 then [] else (if s[0].total == t then [s[0]] else []) + Ties(s[1..], t)
  }

  lemma {:induction false} TiesConcat(a: seq<Group<string>>, b: seq<Group<string>>, t: int)
    ensures Ties(a + b, t) == Ties(a, t) + Ties(b, t)
  {
    if |a| == 0 {
      assert a + b == b;
    } else {
      assert (a + b)[1..] == a[1..] + b;
      TiesConcat(a[1..], b, t);
    }
  }

  lemma {:induction false} TiesMember(s: seq<Group<string>>, t: int, x: Group<string>)
    requires x in Ties(s, t)
    ensures x in s && x.total == t
  {
    if x != s[0] || s[0].total != t {
      TiesMember(s[1..], t, x);
    }
  }

  /** Stability: the groups of each total appear in `s` in the same order, and with
      the same copies, as in `r`. */
  ghost predicate SameTies(s: seq<Group<string>>, r: seq<Group<string>>)
  {
    forall t :: Ties(s, t) == Ties(r, t)
  }

  lemma TiesTrans(a: seq<Group<string>>, b: seq<Group<string>>, c: seq<Group<string>>)
    requires SameTies(a, b) && SameTies(b, c)
    ensures SameTies(a, c)
  {
    forall t
      ensures Ties(a, t) == Ties(c, t)
    {
      assert Ties(a, t) == Ties(b, t);
    }
  }

  /** Exchanging two neighbours with different totals keeps every tie in order. */
  lemma SwapKeepsTies(s: seq<Group<string>>, j: nat)
    requires 0 < j < |s| && s[j - 1].total != s[j].total
    ensures SameTies(s[j - 1 := s[j]][j := s[j - 1]], s)
  {
    var s' := s[j - 1 := s[j]][j := s[j - 1]];
    var pre, x, y, post := s[..j - 1], s[j - 1], s[j], s[j + 1..];
    assert s == pre + ([x, y] + post);
    assert s' == pre + ([y, x] + post);
    forall t
      ensures Ties(s', t) == Ties(s, t)
    {
      TiesConcat(pre, [x, y] + post, t);
      TiesConcat(pre, [y, x] + post, t);
      assert ([x, y] + post)[1..] == [y] + post;
      assert ([y, x] + post)[1..] == [x] + post;
      assert ([y] + post)[1..] == post;
      assert ([x] + post)[1..] == post;
    }
  }

  /** A descending order that keeps every tie in its original order is unique: the
      sort's result, and so `slice(0, 5)` of it, is fully determined. */
  lemma {:induction false} StableDescendingUnique(s1: seq<Group<string>>, s2: seq<Group<string>>)
    requires Descending(s1) && Descending(s2) && SameTies(s1, s2)
    ensures s1 == s2
    decreases |s1|
  {
    if |s1| > 0 {
      assert Ties(s1, s1[0].total) != [];
    }
    if |s2| > 0 {
      assert Ties(s2, s2[0].total) != [];
    }
    if |s1| > 0 && |s2| > 0 {
      var t1, t2 := s1[0].total, s2[0].total;
      assert Ties(s1, t1)[0] == s1[0];
      assert Ties(s2, t2)[0] == s2[0];
      TiesMember(s2, t1, s1[0]);
      TiesMember(s1, t2, s2[0]);
      var k1 :| 0 <= k1 < |s2| && s2[k1] == s1[0];
      var k2 :| 0 <= k2 < |s1| && s1[k2] == s2[0];
      assert k1 > 0 ==> t2 >= t1;
      assert k2 > 0 ==> t1 >= t2;
      assert s1[0] == s2[0];
      forall t
        ensures Ties(s1[1..], t) == Ties(s2[1..], t)
      {
        var c := if t == t1 then [s1[0]] else [];
        assert Ties(s1, t) == c + Ties(s1[1..], t);
        assert Ties(s2, t) == c + Ties(s2[1..], t);
        assert Ties(s1[1..], t) == Ties(s1, t)[|c|..];
        assert Ties(s2[1..], t) == Ties(s2, t)[|c|..];
      }
      StableDescendingUnique(s1[1..], s2[1..]);
      assert s1 == [s1[0]] + s1[1..] && s2 == [s2[0]] + s2[1..];
    }
  }

  /** `expensesByCategory.sort((a, b) => b.total - a.total)`, in place. The comparator
      orders by total alone and `Array.prototype.sort` is stable, so groups with equal
      totals keep their order. */
  method SortByTotal(a: array<Group<string>>)
    modifies a
    ensures Descending(a[..])
    ensures SameTies(a[..], old(a[..]))
    ensures multiset(a[..]) == multiset(old(a[..]))
  {
    var i := 0;
    while i < a.Length
      invariant 0 <= i <= a.Length
      invariant Descending(a[..i])
      invariant SameTies(a[..], old(a[..]))
      invariant multiset(a[..]) == multiset(old(a[..]))
    {
      Sift(a, i);
      i := i + 1;
    }
    assert a[..a.Length] == a[..];
  }

  /** One pass of insertion: move `a[i]` left past every smaller total, so that the
      first i + 1 entries are in order. */
  method Sift(a: array<Group<string>>, i: nat)
    requires i < a.Length && Descending(a[..i])
    modifies a
    ensures Descending(a[..i + 1])
    ensures SameTies(a[..], old(a[..]))
    ensures multiset(a[..]) == multiset(old(a[..]))
  {
    var j := i;
    while j > 0 && a[j - 1].total < a[j].total
      invariant 0 <= j <= i
      invariant Sifting(a[..], j, i)
      invariant SameTies(a[..], old(a[..]))
      invariant multiset(a[..]) == multiset(old(a[..]))
    {
      ghost var s := a[..];
      SwapStep(s, j, i, old(a[..]));
      a[j - 1], a[j] := a[j], a[j - 1];
      assert a[..] == s[j - 1 := s[j]][j := s[j - 1]];
      j := j - 1;
    }
  }

  /** While `Sift` runs: the first i + 1 entries are in order apart from the moving
      entry at j, which is larger than everything after it. */
  ghost predicate Sifting(s: seq<Group<string>>, j: nat, i: nat)
    requires j <= i < |s|
  {
    (forall p, q :: 0 <= p < q <= i && p != j && q != j ==> s[p].total >= s[q].total) &&
    (forall q :: j < q <= i ==> s[j].total > s[q].total)
  }

  /** One exchange of `Sift` keeps its invariant. */
  lemma SwapStep(s: seq<Group<string>>, j: nat, i: nat, o: seq<Group<string>>)
    requires 0 < j <= i < |s| && s[j - 1].total < s[j].total && Sifting(s, j, i)
    requires SameTies(s, o) && multiset(s) == multiset(o)
    ensures var s' := s[j - 1 := s[j]][j := s[j - 1]];
      Sifting(s', j - 1, i) && SameTies(s', o) && multiset(s') == multiset(o)
  {
    var s' := s[j - 1 := s[j]][j := s[j - 1]];
    SwapKeepsTies(s, j);
    TiesTrans(s', s, o);
  }

  /** The sorted groups and `slice(0, 5)` of them. */
  method TopCategories(groups: seq<Group<string>>) returns (sorted: seq<Group<string>>, top: seq<Group<string>>)
    ensures multiset(sorted) == multiset(groups) && Descending(sorted) && SameTies(sorted, groups)
    ensures top == sorted[..Min(5, |sorted|)]
    ensures forall p, q :: 0 <= p < |top| && |top| <= q < |sorted| ==> top[p].total >= sorted[q].total
  {
    var a := new Group<string>[|groups|](i requires 0 <= i < |groups| => groups[i]);
    assert a[..] == groups;
    SortByTotal(a);
    sorted := a[..];
    top := sorted[..Min(5, |sorted|)];
  }

  // ---------------------------------------------------------------------------
  // Budgets

  /** The expenses counted against a budget: same category id, same month. */
  function Counted(b: BudgetView): Transaction -> bool
  {
    (e: Transaction) => e.category.Some? && b.category.Some? && e.category.value.id == b.category.value.id && e.date.month == b.month
  }

  /** Reference definition: the amounts of the expenses counted against `b`. */
  function SpentOn(f: seq<Transaction>, b: BudgetView): int
  {
    SumBy(f, (e: Transaction) => if Counted(b)(e) then e.amount else 0)
  }

  /** `limit > 0 ? (spent / limit) * 100 : 0`. */
  function PercentageOf(spent: int, limit: int): (p: real)
    ensures limit > 0 ==> p * (limit as real) == 100.0 * (spent as real)
    ensures limit <= 0 ==> p == 0.0
  {
    if limit > 0 then
      PercentOfLimit(spent as real, limit as real);
      (spent as real) / (limit as real) * 100.0
    else 0.0
  }

  lemma PercentOfLimit(spent: real, limit: real)
    requires limit > 0.0
    ensures (spent / limit * 100.0) * limit == 100.0 * spent
  {
    assert (spent / limit) * limit == spent;
    assert (spent / limit * 100.0) * limit == ((spent / limit) * limit) * 100.0;
  }

  /** One element of `allMonthsBudgets.map(...)`: the filtered, summed spending and the
      percentage of the limit (0 when the limit is not positive). The filter reads
      `budget.category._id` once per expense, so a budget without a category throws
      (`None`) as soon as there is an expense to test. */
  function WithSpent(f: seq<Transaction>, b: BudgetView): (w: Option<BudgetWithSpent>)
    ensures w.None? <==> b.category.None? && |f| > 0
    ensures w.Some? ==> w.value.budget == b && w.value.spent == SpentOn(f, b)
    ensures w.Some? ==> w.value.percentage == PercentageOf(w.value.spent, b.limit)
  {
    if b.category.None? && |f| > 0 then None
    else
      SumByFilter(f, Counted(b), (e: Transaction) => e.amount, (e: Transaction) => if Counted(b)(e) then e.amount else 0);
      var spent := SumBy(Filter(f, Counted(b)), (e: Transaction) => e.amount);
      Some(BudgetWithSpent(b, spent, PercentageOf(spent, b.limit)))
  }

  /** `allMonthsBudgets.map(...)`: one entry per budget, in order, or the exception of
      the first budget whose callback throws. */
  function BudgetsWithSpent(f: seq<Transaction>, budgets: seq<BudgetView>): (ws: Option<seq<BudgetWithSpent>>)
    ensures ws.None? <==> |f| > 0 && exists i :: 0 <= i < |budgets| && budgets[i].category.None?
    ensures ws.Some? ==> |ws.value| == |budgets| && forall i :: 0 <= i < |budgets| ==> WithSpent(f, budgets[i]) == Some(ws.value[i])
  {
    var ws := MapOrThrow(budgets, (b: BudgetView) => WithSpent(f, b));
    assert ws.None? <==> exists i :: 0 <= i < |budgets| && WithSpent(f, budgets[i]).None?;
    ws
  }

  /** The `budgets` state after a fetch, not what the list renders: the result of
      `setBudgets(budgetsWithSpent)`, or the previous list when the `map` threw and
      the outer `catch` skipped `setBudgets`. */
  function BudgetsShown(current: seq<BudgetWithSpent>, f: seq<Transaction>, budgets: seq<BudgetView>): (shown: seq<BudgetWithSpent>)
    ensures (|f| > 0 && exists i :: 0 <= i < |budgets| && budgets[i].category.None?) ==> shown == current
    ensures !(|f| > 0 && exists i :: 0 <= i < |budgets| && budgets[i].category.None?) ==>
      |shown| == |budgets| &&
      forall i :: 0 <= i < |budgets| ==>
        shown[i].budget == budgets[i] && shown[i].spent == SpentOn(f, budgets[i]) &&
        shown[i].percentage == PercentageOf(shown[i].spent, budgets[i].limit)
  {
    var ws := BudgetsWithSpent(f, budgets);
    if ws.None? then current else ws.value
  }

  datatype Progress = OverBudget | Warning | Safe

  /** The progress bar's class. */
  function ProgressClass(percentage: real): Progress
  {
    if percentage > 100.0 then OverBudget else if percentage > 80.0 then Warning else Safe
  }

  /** The progress bar's width, `Math.min(percentage, 100)`. */
  function BarWidth(percentage: real): (w: real)
    ensures w <= 100.0 && w <= percentage && (w == 100.0 || w == percentage)
  {
    if percentage <= 100.0 then percentage else 100.0
  }

  /** For a positive limit the bar is over-budget exactly when the spending exceeds the
      limit, and a warning exactly when it is above 80 percent of the limit but not over. */
  lemma ProgressMeansSpending(f: seq<Transaction>, b: BudgetView)
    requires b.limit > 0 && (b.category.Some? || |f| == 0)
    ensures WithSpent(f, b).Some?
    ensures var w := WithSpent(f, b).value;
      (ProgressClass(w.percentage) == OverBudget <==> w.spent > b.limit) &&
      (ProgressClass(w.percentage) == Warning <==> 80 * b.limit < 100 * w.spent <= 100 * b.limit)
  {
    var w := WithSpent(f, b).value;
    ProgressOf(w.percentage, w.spent, b.limit);
  }

  lemma ProgressOf(p: real, spent: int, limit: int)
    requires limit > 0 && p * (limit as real) == 100.0 * (spent as real)
    ensures ProgressClass(p) == OverBudget <==> spent > limit
    ensures ProgressClass(p) == Warning <==> 80 * limit < 100 * spent <= 100 * limit
  {
    var l := limit as real;
    var scaled := 100.0 * (spent as real);
    ScaledCompare(p, 100.0, l, scaled);
    ScaledCompare(p, 80.0, l, scaled);
  }

  /** Multiplying by a positive number keeps the order: with `scaled` the product of
      `p` and `l`, comparing `p` with `c` is comparing `scaled` with `c * l`. */
  lemma ScaledCompare(p: real, c: real, l: real, scaled: real)
    requires l > 0.0 && scaled == p * l
    ensures p > c <==> scaled > c * l
  {
    assert scaled - c * l == (p - c) * l;
    if p > c {
      assert (p - c) * l > 0.0;
    } else {
      assert (c - p) * l >= 0.0;
    }
  }

  // ---------------------------------------------------------------------------
  // Remaining budget

  /** `totals.budget - totals.spent` of the yearly report, or 0 while there is none. */
  function BudgetRemaining(stats: Option<Stats.Totals>): (rem: int)
    ensures stats.None? ==> rem == 0
    ensures stats.Some? ==> rem + stats.value.spent == stats.value.budget
  {
    if stats.Some? then stats.value.budget - stats.value.spent else 0
  }

  datatype RemainingMessage = Exceeded(amount: nat) | Exact | Left

  /** The card's footer: "Vượt <amount>", "Vừa đủ định mức" or "Còn dư trong định mức". */
  function Message(rem: int): (m: RemainingMessage)
    ensures m.Exceeded? <==> rem < 0
    ensures m == Exact <==> rem == 0
    ensures m == Left <==> rem > 0
    ensures m.Exceeded? ==> m.amount == -rem
  {
    if rem < 0 then Exceeded(Abs(rem)) else if rem == 0 then Exact else Left
  }

  /** The footer reports an excess exactly when the year's spending is above its budget,
      by that difference. */
  lemma MessageMeansSpending(t: Stats.Totals)
    ensures Message(BudgetRemaining(Some(t))).Exceeded? <==> t.spent > t.budget
    ensures Message(BudgetRemaining(Some(t))).Exceeded? ==> Message(BudgetRemaining(Some(t))).amount == t.spent - t.budget
  {
  }
}
