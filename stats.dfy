/** The yearly statistics report of `getYearlyStats`: two grouped sums (expense amount
    and budget limit, by month, for one year), merged into a dense list of twelve months
    with a clamped overage and a rounded percentage each, and yearly totals that sum the
    already-clamped months. */
module Stats {
  import opened Util
  import opened Grouping

  /** An Expense document as the aggregate pipeline reads it (`amount`, `month`, `year`). */
  datatype ExpenseDoc = ExpenseDoc(amount: int, month: int, year: int)

  /** A Budget document as the aggregate pipeline reads it (`limit`, `month`, `year`). */
  datatype BudgetDoc = BudgetDoc(limit: int, month: int, year: int)

  datatype MonthStat = MonthStat(month: int, spent: int, budget: int, over: int, percent: int)

  datatype Totals = Totals(spent: int, budget: int, over: int)

  datatype YearlyStats = YearlyStats(year: int, months: seq<MonthStat>, totals: Totals)

  /** 200 with the report, 400 for a missing year, 500 when a query fails. */
  datatype StatsReply = Report(stats: YearlyStats) | MissingYear | ServerError

  /** `{ $match: { year } }` followed by the (month, amount) projection the `$group` reads. */
  function SpentPairs(docs: seq<ExpenseDoc>, year: int): seq<(int, int)>
  {
    if |docs| == 0 then []
    else (if docs[0].year == year then [(docs[0].month, docs[0].amount)] else []) + SpentPairs(docs[1..], year)
  }

  function BudgetPairs(docs: seq<BudgetDoc>, year: int): seq<(int, int)>
  {
    if |docs| == 0 then []
    else (if docs[0].year == year then [(docs[0].month, docs[0].limit)] else []) + BudgetPairs(docs[1..], year)
  }

  /** Reference definitions: what was spent, and what was budgeted, in month m of the year. */
  function SpentIn(docs: seq<ExpenseDoc>, year: int, m: int): int
  {
    SumBy(docs, (d: ExpenseDoc) => if d.year == year && d.month == m then d.amount else 0)
  }

  function BudgetIn(docs: seq<BudgetDoc>, year: int, m: int): int
  {
    SumBy(docs, (d: BudgetDoc) => if d.year == year && d.month == m then d.limit else 0)
  }

  lemma {:induction false} SumForConcat(a: seq<(int, int)>, b: seq<(int, int)>, k: int)
    ensures SumFor(a + b, k) == SumFor(a, k) + SumFor(b, k)
  {
    if |b| == 0 {
      assert a + b == a;
    } else {
      assert (a + b)[..|a + b| - 1] == a + b[..|b| - 1];
      SumForConcat(a, b[..|b| - 1], k);
    }
  }

  lemma {:induction false} SpentPairsSum(docs: seq<ExpenseDoc>, year: int, m: int)
    ensures SumFor(SpentPairs(docs, year), m) == SpentIn(docs, year, m)
  {
    if |docs| > 0 {
      SpentPairsSum(docs[1..], year, m);
      var head := if docs[0].year == year then [(docs[0].month, docs[0].amount)] else [];
      SumForConcat(head, SpentPairs(docs[1..], year), m);
      if docs[0].year == year {
        assert head[..0] == [];
      }
    }
  }

  lemma {:induction false} BudgetPairsSum(docs: seq<BudgetDoc>, year: int, m: int)
    ensures SumFor(BudgetPairs(docs, year), m) == BudgetIn(docs, year, m)
  {
    if |docs| > 0 {
      BudgetPairsSum(docs[1..], year, m);
      var head := if docs[0].year == year then [(docs[0].month, docs[0].limit)] else [];
      SumForConcat(head, BudgetPairs(docs[1..], year), m);
      if docs[0].year == year {
        assert head[..0] == [];
      }
    }
  }

  /** `e?.spent || 0`: the grouped sum of a month, or 0 when the month has no group. */
  function Or0(g: Option<Group<int>>): int
  {
    match g
    case Some(x) => x.total
    case None => 0
  }

  /** Looking a month up in the grouped result gives the reference sum for that month. */
  lemma LookupIsSum(p: seq<(int, int)>, m: int)
    ensures Or0(FindGroup(GroupSums(p), m)) == SumFor(p, m)
  {
    FindGroupSums(p, m);
    NoCountNoSum(p, m);
  }

  /** One entry of the report. */
  function MonthStatOf(m: int, spent: int, budget: int): (s: MonthStat)
    ensures s.month == m && s.spent == spent && s.budget == budget
    ensures s.over >= 0 && s.over >= spent - budget
    ensures s.over == 0 || s.over == spent - budget
    ensures budget == 0 ==> s.percent == 0
    ensures budget != 0 ==> s.percent == RoundedPercent(spent, budget)
  {
    var over := if spent > budget then spent - budget else 0;
    var percent := if budget != 0 then RoundedPercent(spent, budget) else 0;
    MonthStat(m, spent, budget, over, percent)
  }

  /** The dense merge: months 1..12, each looking up both sparse aggregates. */
  function Months(spentGroups: seq<Group<int>>, budgetGroups: seq<Group<int>>): (ms: seq<MonthStat>)
    ensures |ms| == 12
    ensures forall i :: 0 <= i < 12 ==>
      ms[i] == MonthStatOf(i + 1, Or0(FindGroup(spentGroups, i + 1)), Or0(FindGroup(budgetGroups, i + 1)))
  {
    seq(12, i requires 0 <= i < 12 =>
      MonthStatOf(i + 1, Or0(FindGroup(spentGroups, i + 1)), Or0(FindGroup(budgetGroups, i + 1))))
  }

  /** `months.reduce((acc, m) => ({ spent: acc.spent + m.spent, ... }), zero)`. */
  function Tally(ms: seq<MonthStat>): Totals
  {
    if |ms| == 0 then Totals(0, 0, 0)
    else
      var t := Tally(ms[..|ms| - 1]);
      var m := ms[|ms| - 1];
      Totals(t.spent + m.spent, t.budget + m.budget, t.over + m.over)
  }

  /** The totals are the sums of the entries' fields. */
  lemma {:induction false} TallyIsSums(ms: seq<MonthStat>)
    ensures Tally(ms).spent == SumBy(ms, (m: MonthStat) => m.spent)
    ensures Tally(ms).budget == SumBy(ms, (m: MonthStat) => m.budget)
    ensures Tally(ms).over == SumBy(ms, (m: MonthStat) => m.over)
  {
    if |ms| > 0 {
      var init := ms[..|ms| - 1];
      TallyIsSums(init);
      assert ms == init + [ms[|ms| - 1]];
      SumByConcat(init, [ms[|ms| - 1]], (m: MonthStat) => m.spent);
      SumByConcat(init, [ms[|ms| - 1]], (m: MonthStat) => m.budget);
      SumByConcat(init, [ms[|ms| - 1]], (m: MonthStat) => m.over);
    }
  }

  ghost predicate Clamped(ms: seq<MonthStat>)
  {
    forall i :: 0 <= i < |ms| ==> ms[i].over >= 0 && ms[i].over >= ms[i].spent - ms[i].budget
  }

  /** Clamp-then-sum: a month under budget never offsets another month's overage, so the
      total overage is at least the net overage of the year (and never negative). */
  lemma {:induction false} TotalOverCoversNet(ms: seq<MonthStat>)
    requires Clamped(ms)
    ensures Tally(ms).over >= 0
    ensures Tally(ms).over >= Tally(ms).spent - Tally(ms).budget
  {
    if |ms| > 0 {
      var init := ms[..|ms| - 1];
      assert Clamped(init) by {
        forall i | 0 <= i < |init| ensures init[i] == ms[i] { }
      }
      TotalOverCoversNet(init);
    }
  }

  /** The two formulations differ: one month 50 over and one month 50 under give a total
      overage of 50, where sum-then-clamp would report 0. */
  lemma ClampThenSumExample()
    ensures var t := Tally([MonthStatOf(1, 150, 100), MonthStatOf(2, 50, 100)]);
      t.over == 50 && t.spent - t.budget == 0
  {
    var ms := [MonthStatOf(1, 150, 100), MonthStatOf(2, 50, 100)];
    assert ms[..1] == [ms[0]];
    assert ms[..1][..0] == [];
  }

  /** The 200 body for a valid year: the dense months and their totals. */
  function BuildReport(y: int, expenses: seq<ExpenseDoc>, budgets: seq<BudgetDoc>): (s: YearlyStats)
    ensures s.year == y
    ensures |s.months| == 12
    ensures forall i :: 0 <= i < 12 ==>
      s.months[i] == MonthStatOf(i + 1, SpentIn(expenses, y, i + 1), BudgetIn(budgets, y, i + 1))
    ensures s.totals == Tally(s.months)
    ensures s.totals.over >= 0 && s.totals.over >= s.totals.spent - s.totals.budget
  {
    var months := Months(GroupSums(SpentPairs(expenses, y)), GroupSums(BudgetPairs(budgets, y)));
    MonthsMatchDocs(expenses, budgets, y, months);
    TotalOverCoversNet(months);
    YearlyStats(y, months, Tally(months))
  }

  /** The grouped lookups of the merge give, month by month, the reference sums. */
  lemma MonthsMatchDocs(expenses: seq<ExpenseDoc>, budgets: seq<BudgetDoc>, y: int, ms: seq<MonthStat>)
    requires ms == Months(GroupSums(SpentPairs(expenses, y)), GroupSums(BudgetPairs(budgets, y)))
    ensures |ms| == 12
    ensures forall i :: 0 <= i < 12 ==>
      ms[i] == MonthStatOf(i + 1, SpentIn(expenses, y, i + 1), BudgetIn(budgets, y, i + 1))
  {
    forall i | 0 <= i < 12
      ensures ms[i] == MonthStatOf(i + 1, SpentIn(expenses, y, i + 1), BudgetIn(budgets, y, i + 1))
    {
      LookupIsSum(SpentPairs(expenses, y), i + 1);
      SpentPairsSum(expenses, y, i + 1);
      LookupIsSum(BudgetPairs(budgets, y), i + 1);
      BudgetPairsSum(budgets, y, i + 1);
    }
  }

  /** `getYearlyStats`. `year` is `Number(req.query.year)` (None when it is not a number);
      the two flags say whether each aggregate query completed. */
  function GetYearlyStats(year: Option<int>, expenses: seq<ExpenseDoc>, budgets: seq<BudgetDoc>,
                          expensesQueryOk: bool, budgetsQueryOk: bool): (r: StatsReply)
    ensures r.MissingYear? <==> year == None || year == Some(0)
    ensures r.ServerError? <==> year != None && year != Some(0) && !(expensesQueryOk && budgetsQueryOk)
    ensures r.Report? ==> r.stats == BuildReport(year.value, expenses, budgets)
  {
    if year == None || year == Some(0) then MissingYear
    else if !(expensesQueryOk && budgetsQueryOk) then ServerError
    else Report(BuildReport(year.value, expenses, budgets))
  }

  /** The months whose overage is positive, in report order (`months.filter(m => m.over > 0)`). */
  function OverMonths(ms: seq<MonthStat>): (r: seq<MonthStat>)
    ensures forall m :: m in r <==> m in ms && m.over > 0
    ensures forall m :: multiset(r)[m] == if m.over > 0 then multiset(ms)[m] else 0
    ensures |r| <= |ms|
  {
    Filter(ms, (m: MonthStat) => m.over > 0)
  }
}
