/** The year summary cards: the three yearly totals as they come, the number of months
    over budget out of the months listed, and that ratio as a rounded percentage, red
    above one half. */
module YearSummary {
  import opened Util
  import opened Stats

  datatype Colour = Red | Green

  datatype Summary = Summary(spent: int, budget: int, over: int, monthsOver: nat, monthCount: nat,
                             percentOver: Option<int>, colour: Colour)

  /** `months.filter(m => m.over > 0).length`. */
  function MonthsOver(ms: seq<MonthStat>): (n: nat)
    ensures n <= |ms|
  {
    |OverMonths(ms)|
  }

  /** Reference definition: one for each month whose overage is positive. */
  function CountOver(ms: seq<MonthStat>): nat
  {
    if |ms| == 0 then 0 else (if ms[0].over > 0 then 1 else 0) + CountOver(ms[1..])
  }

  lemma {:induction false} MonthsOverCounts(ms: seq<MonthStat>)
    ensures MonthsOver(ms) == CountOver(ms)
  {
    if |ms| > 0 {
      MonthsOverCounts(ms[1..]);
      assert ms == [ms[0]] + ms[1..];
      FilterConcat([ms[0]], ms[1..], (m: MonthStat) => m.over > 0);
    }
  }

  /** `Math.round(monthsOver / months.length * 100)`; `NaN` (None) for no months. */
  function PercentOver(ms: seq<MonthStat>): (p: Option<int>)
    ensures |ms| == 0 <==> p.None?
    ensures p.Some? ==> 0 <= p.value <= 100
    ensures p.Some? ==> (2 * p.value - 1) * |ms| <= 200 * MonthsOver(ms) < (2 * p.value + 1) * |ms|
  {
    if |ms| == 0 then None
    else
      PercentWithinRange(MonthsOver(ms), |ms|);
      Some(RoundedPercent(MonthsOver(ms), |ms|))
  }

  /** `percentOver > 50 ? "red" : "green"`; `NaN > 50` is false. */
  function ColourOf(p: Option<int>): (c: Colour)
    ensures c == Red <==> p.Some? && p.value > 50
  {
    if p.Some? && p.value > 50 then Red else Green
  }

  function SummaryOf(stats: YearlyStats): (s: Summary)
    ensures s.spent == stats.totals.spent && s.budget == stats.totals.budget && s.over == stats.totals.over
    ensures s.monthsOver == MonthsOver(stats.months) && s.monthCount == |stats.months|
    ensures s.percentOver == PercentOver(stats.months) && s.colour == ColourOf(s.percentOver)
  {
    var p := PercentOver(stats.months);
    Summary(stats.totals.spent, stats.totals.budget, stats.totals.over,
            MonthsOver(stats.months), |stats.months|, p, ColourOf(p))
  }

  /** Over the twelve months of a report, the card is red exactly when at least seven
      months are over budget: six of twelve rounds to exactly 50. */
  lemma RedFromSevenOfTwelve(ms: seq<MonthStat>)
    requires |ms| == 12
    ensures ColourOf(PercentOver(ms)) == Red <==> MonthsOver(ms) >= 7
  {
    var k := MonthsOver(ms);
    var r := PercentOver(ms).value;
    assert (2 * r - 1) * 12 <= 200 * k < (2 * r + 1) * 12;
    if r > 50 {
      assert 101 * 12 <= (2 * r - 1) * 12;
    }
    if k >= 7 {
      assert 1400 < (2 * r + 1) * 12;
    }
  }
}
