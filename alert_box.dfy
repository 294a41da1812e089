/** The alert box: the months of the report whose overage is positive, in report
    order, and how many there are out of the months listed. */
module AlertBox {
  import opened Util
  import opened Grouping
  import opened Stats

  datatype Alert = Alert(listed: seq<MonthStat>, countOver: nat, monthCount: nat)

  function AlertOf(stats: YearlyStats): (a: Alert)
    ensures forall m :: m in a.listed <==> m in stats.months && m.over > 0
    ensures forall m :: multiset(a.listed)[m] == if m.over > 0 then multiset(stats.months)[m] else 0
    ensures a.countOver == |a.listed| <= |stats.months| && a.monthCount == |stats.months|
  {
    var listed := OverMonths(stats.months);
    Alert(listed, |listed|, |stats.months|)
  }

  /** A report with no month over budget lists nothing and counts 0. */
  lemma NoOverageNoAlert(stats: YearlyStats)
    requires forall i :: 0 <= i < |stats.months| ==> stats.months[i].over <= 0
    ensures AlertOf(stats).listed == [] && AlertOf(stats).countOver == 0
  {
    var a := AlertOf(stats);
    if |a.listed| > 0 {
      assert false;
    }
  }

  /** A sequence without repeated elements holds each of them once. */
  lemma {:induction false} DistinctOnce<T>(s: seq<T>, i: nat)
    requires i < |s|
    requires forall p, q :: 0 <= p < q < |s| ==> s[p] != s[q]
    ensures multiset(s)[s[i]] == 1
  {
    assert s == [s[0]] + s[1..];
    if i == 0 {
      assert s[0] !in s[1..];
    } else {
      DistinctOnce(s[1..], i - 1);
      assert s[1..][i - 1] == s[i];
    }
  }

  /** In the report the backend builds, each month over budget is listed exactly once. */
  lemma EachOverMonthOnce(y: int, expenses: seq<ExpenseDoc>, budgets: seq<BudgetDoc>, i: nat)
    requires i < 12 && BuildReport(y, expenses, budgets).months[i].over > 0
    ensures multiset(AlertOf(BuildReport(y, expenses, budgets)).listed)[BuildReport(y, expenses, budgets).months[i]] == 1
  {
    var ms := BuildReport(y, expenses, budgets).months;
    assert forall p :: 0 <= p < 12 ==> ms[p].month == p + 1;
    DistinctOnce(ms, i);
  }
}
