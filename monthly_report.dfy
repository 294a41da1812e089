/** The monthly report page: fixed per-category limits, the month's transactions
    spent per category, the overall or per-category gauge, and the transaction list
    flagged by the same spending. */
module MonthlyReport {
  import opened Util
  import opened TransactionList

  /** The category filter's "everything" value. */
  const All: string := "Tất cả"

  /** `categoryLimits`, in the order of its keys. */
  const Limits: seq<(string, int)> := [("Ăn uống", 5000000), ("Đi lại", 2000000), ("Giải trí", 2000000)]

  /** The page's built-in transactions. */
  const Sample: seq<Tx> := [
    Tx("01/11/2025", "Ăn uống", -3000000, 11, 2025),
    Tx("15/11/2025", "Ăn uống", -2000000, 11, 2025),
    Tx("27/11/2025", "Ăn uống", -2000000, 11, 2025),
    Tx("10/11/2025", "Đi lại", -500000, 11, 2025),
    Tx("20/11/2025", "Giải trí", -250000, 11, 2025)
  ]

  /** `Math.round(x)` of a quotient, or the value a division by zero gives. */
  datatype Percent = Finite(value: int) | PosInfinity | NegInfinity | NaN

  datatype Shade = Red | Orange | Green

  datatype Gauge = Gauge(percent: Percent, width: Percent, over: bool, shade: Shade)

  datatype View = View(categoryData: seq<CategoryData>, totalSpent: int, totalLimit: int,
                       gauge: Option<Gauge>, rows: seq<RowView>)

  function InMonth(month: int, year: int): Tx -> bool
  {
    (tx: Tx) => tx.month == month && tx.year == year
  }

  function FilteredByMonthYear(txs: seq<Tx>, month: int, year: int): (f: seq<Tx>)
    ensures forall tx :: tx in f <==> tx in txs && tx.month == month && tx.year == year
    ensures forall tx :: multiset(f)[tx] == if tx.month == month && tx.year == year then multiset(txs)[tx] else 0
  {
    Filter(txs, InMonth(month, year))
  }

  /** Absent transactions spend nothing under a name. */
  lemma {:induction false} SpentOnAbsent(s: seq<Tx>, name: string)
    requires forall k :: 0 <= k < |s| ==> s[k].category != name
    ensures SpentOn(s, name) == 0
  {
    if |s| > 0 {
      SpentOnAbsent(s[1..], name);
    }
  }

  /** `spentByCategory[name] || 0`. */
  function SpentOr0(spent: map<string, int>, name: string): int
  {
    if name in spent && spent[name] != 0 then spent[name] else 0
  }

  /** The `forEach` that adds each transaction's absolute amount to its category. */
  method SpentByCategory(f: seq<Tx>) returns (spent: map<string, int>)
    ensures forall c :: c in spent <==> exists k :: 0 <= k < |f| && f[k].category == c
    ensures forall c :: c in spent ==> spent[c] == SpentOn(f, c)
    ensures forall c :: SpentOr0(spent, c) == SpentOn(f, c)
  {
    spent := map[];
    var i := 0;
    while i < |f|
      invariant 0 <= i <= |f|
      invariant forall c :: c in spent <==> exists k :: 0 <= k < i && f[k].category == c
      invariant forall c :: c in spent ==> spent[c] == SpentOn(f[..i], c)
    {
      var tx := f[i];
      if tx.category !in spent {
        SpentOnAbsent(f[..i], tx.category);
      }
      forall c
        ensures SpentOn(f[..i + 1], c) == SpentOn(f[..i], c) + (if f[i].category == c then Abs(f[i].amount) else 0)
      {
        SumByPrefix(f, i, (tx: Tx) => if tx.category == c then Abs(tx.amount) else 0);
      }
      spent := spent[tx.category := SpentOr0(spent, tx.category) + Abs(tx.amount)];
      i := i + 1;
    }
    assert f[..|f|] == f;
    forall c | c !in spent
      ensures SpentOn(f, c) == 0
    {
      SpentOnAbsent(f, c);
    }
  }

  /** `Object.keys(categoryLimits).map(name => ({ name, spent: spentByCategory[name] || 0, limit }))`. */
  function CategoryDataOf(limits: seq<(string, int)>, spent: map<string, int>): (cd: seq<CategoryData>)
    ensures |cd| == |limits|
    ensures forall i :: 0 <= i < |limits| ==> cd[i] == CategoryData(limits[i].0, SpentOr0(spent, limits[i].0), limits[i].1)
  {
    seq(|limits|, i requires 0 <= i < |limits| => CategoryData(limits[i].0, SpentOr0(spent, limits[i].0), limits[i].1))
  }

  /** Reference definition: each limit with what the month's transactions spent under it. */
  function LimitData(f: seq<Tx>): seq<CategoryData>
  {
    seq(|Limits|, i requires 0 <= i < |Limits| => CategoryData(Limits[i].0, SpentOn(f, Limits[i].0), Limits[i].1))
  }

  /** "Tất cả" keeps the whole month; any other choice keeps exactly that category's
      transactions, every copy of them, in their order. */
  function FilteredTransactions(f: seq<Tx>, selected: string): (r: seq<Tx>)
    ensures selected == All ==> r == f
    ensures selected != All ==> forall tx :: tx in r <==> tx in f && tx.category == selected
    ensures selected != All ==> forall tx :: multiset(r)[tx] == if tx.category == selected then multiset(f)[tx] else 0
    ensures Embeds(r, f)
  {
    if selected == All then
      EmbedsSelf(f);
      f
    else
      FilterKeepsOrder(f, Named(selected));
      Filter(f, Named(selected))
  }

  function TotalSpent(cd: seq<CategoryData>): int
  {
    SumBy(cd, (c: CategoryData) => c.spent)
  }

  function TotalLimit(cd: seq<CategoryData>): int
  {
    SumBy(cd, (c: CategoryData) => c.limit)
  }

  /** What the month's transactions spent, all categories together. */
  function MonthSpending(f: seq<Tx>): int
  {
    SumBy(f, (tx: Tx) => Abs(tx.amount))
  }

  /** Reference definition: the spending under each listed name, added up. */
  function SpentAcross(cd: seq<CategoryData>, f: seq<Tx>): int
  {
    if |cd| == 0 then 0 else SpentOn(f, cd[0].name) + SpentAcross(cd[1..], f)
  }

  /** How many entries carry this name. */
  function Occurrences(cd: seq<CategoryData>, name: string): nat
  {
    if |cd| == 0 then 0 else (if cd[0].name == name then 1 else 0) + Occurrences(cd[1..], name)
  }

  /** Some entry carries this name. */
  predicate Listed(cd: seq<CategoryData>, name: string)
  {
    exists i :: 0 <= i < |cd| && cd[i].name == name
  }

  /** `name` is a key of `categoryLimits`. */
  predicate HasLimit(name: string)
  {
    exists i :: 0 <= i < |Limits| && Limits[i].0 == name
  }

  predicate DistinctNames(cd: seq<CategoryData>)
  {
    forall p, q :: 0 <= p < q < |cd| ==> cd[p].name != cd[q].name
  }

  lemma {:induction false} TotalIsSpentAcross(cd: seq<CategoryData>, f: seq<Tx>)
    requires forall i :: 0 <= i < |cd| ==> cd[i].spent == SpentOn(f, cd[i].name)
    ensures TotalSpent(cd) == SpentAcross(cd, f)
  {
    if |cd| > 0 {
      TotalIsSpentAcross(cd[1..], f);
    }
  }

  lemma SpentOnSnoc(f: seq<Tx>, tx: Tx, name: string)
    ensures SpentOn(f + [tx], name) == SpentOn(f, name) + (if tx.category == name then Abs(tx.amount) else 0)
  {
    SumByConcat(f, [tx], (tx: Tx) => if tx.category == name then Abs(tx.amount) else 0);
  }

  lemma {:induction false} SpentAcrossSnoc(cd: seq<CategoryData>, f: seq<Tx>, tx: Tx)
    ensures SpentAcross(cd, f + [tx]) == SpentAcross(cd, f) + Occurrences(cd, tx.category) * Abs(tx.amount)
  {
    if |cd| > 0 {
      SpentOnSnoc(f, tx, cd[0].name);
      SpentAcrossSnoc(cd[1..], f, tx);
    }
  }

  lemma {:induction false} OccursOnce(cd: seq<CategoryData>, name: string)
    requires DistinctNames(cd)
    requires Listed(cd, name)
    ensures Occurrences(cd, name) == 1
  {
    if cd[0].name == name {
      OccursNever(cd[1..], name);
    } else {
      var i :| 0 <= i < |cd| && cd[i].name == name;
      assert cd[1..][i - 1].name == name;
      OccursOnce(cd[1..], name);
    }
  }

  lemma {:induction false} OccursNever(cd: seq<CategoryData>, name: string)
    requires forall i :: 0 <= i < |cd| ==> cd[i].name != name
    ensures Occurrences(cd, name) == 0
  {
    if |cd| > 0 {
      OccursNever(cd[1..], name);
    }
  }

  lemma {:induction false} SpentAcrossNothing(cd: seq<CategoryData>)
    ensures SpentAcross(cd, []) == 0
  {
    if |cd| > 0 {
      SpentAcrossNothing(cd[1..]);
    }
  }

  /** When the names are distinct and every transaction's category is among them, the
      spending added up over the names is the month's whole spending. */
  lemma {:induction false} SpentAcrossCovers(cd: seq<CategoryData>, f: seq<Tx>)
    requires DistinctNames(cd)
    requires forall k :: 0 <= k < |f| ==> Listed(cd, f[k].category)
    ensures SpentAcross(cd, f) == MonthSpending(f)
  {
    if |f| == 0 {
      SpentAcrossNothing(cd);
    } else {
      var init, last := f[..|f| - 1], f[|f| - 1];
      assert f == init + [last];
      assert forall k :: 0 <= k < |init| ==> init[k] == f[k];
      SpentAcrossCovers(cd, init);
      SpentAcrossSnoc(cd, init, last);
      OccursOnce(cd, last.category);
      SumByConcat(init, [last], (tx: Tx) => Abs(tx.amount));
    }
  }

  /** `Math.round(spent / limit * 100)`, with JavaScript's results for a zero limit. */
  function PercentOf(spent: int, limit: int): (p: Percent)
    ensures limit != 0 <==> p.Finite?
    ensures limit > 0 ==> (2 * p.value - 1) * limit <= 200 * spent < (2 * p.value + 1) * limit
    ensures limit < 0 ==> (2 * p.value - 1) * -limit <= -200 * spent < (2 * p.value + 1) * -limit
    ensures limit == 0 ==> (p == PosInfinity <==> spent > 0) && (p == NaN <==> spent == 0) && (p == NegInfinity <==> spent < 0)
  {
    if limit != 0 then Finite(RoundedPercent(spent, limit))
    else if spent > 0 then PosInfinity
    else if spent < 0 then NegInfinity
    else NaN
  }

  /** `Math.min(percent, 100)`. */
  function Capped(p: Percent): (w: Percent)
    ensures w.Finite? ==> w.value <= 100
    ensures p.Finite? ==> w == Finite(Min(p.value, 100))
    ensures p == PosInfinity ==> w == Finite(100)
    ensures p == NegInfinity || p == NaN ==> w == p
  {
    match p
    case Finite(v) => Finite(Min(v, 100))
    case PosInfinity => Finite(100)
    case _ => p
  }

  /** `percent > 80`, false for `NaN` and `-Infinity`. */
  predicate Above80(p: Percent)
  {
    (p.Finite? && p.value > 80) || p == PosInfinity
  }

  /** The gauge bar: red when over the limit, orange above 80 percent, green otherwise. */
  function GaugeOf(spent: int, limit: int): (g: Gauge)
    ensures g.percent == PercentOf(spent, limit) && g.width == Capped(g.percent)
    ensures g.over <==> spent > limit
    ensures g.shade == Red <==> spent > limit
    ensures g.shade == Orange <==> spent <= limit && Above80(g.percent)
  {
    var p := PercentOf(spent, limit);
    var over := spent > limit;
    Gauge(p, Capped(p), over, if over then Red else if Above80(p) then Orange else Green)
  }

  /** Against a positive limit, spending above it always fills the bar. */
  lemma OverFillsBar(spent: int, limit: int)
    requires 0 < limit < spent
    ensures GaugeOf(spent, limit).width == Finite(100) && GaugeOf(spent, limit).shade == Red
  {
    var r := PercentOf(spent, limit).value;
    if r < 100 {
      MulMonotone(2 * r + 1, 199, limit);
      assert false;
    }
  }

  /** Within a positive limit, the bar is orange exactly from 80.5 percent on, and the
      width is the rounded percentage itself. */
  lemma OrangeBand(spent: int, limit: int)
    requires 0 <= spent <= limit && 0 < limit
    ensures GaugeOf(spent, limit).shade == Orange <==> 200 * spent >= 161 * limit
    ensures GaugeOf(spent, limit).shade == Green <==> 200 * spent < 161 * limit
    ensures GaugeOf(spent, limit).width == PercentOf(spent, limit)
  {
    var r := PercentOf(spent, limit).value;
    PercentWithinRange(spent, limit);
    if r > 80 {
      MulMonotone(161, 2 * r - 1, limit);
    } else {
      MulMonotone(2 * r + 1, 161, limit);
    }
  }

  /** `categoryData.find(c => c.name === name)`. */
  function FindByName(cd: seq<CategoryData>, name: string): (r: Option<CategoryData>)
    ensures r.None? <==> forall i :: 0 <= i < |cd| ==> cd[i].name != name
    ensures r.Some? ==> exists i :: (0 <= i < |cd| && cd[i] == r.value && cd[i].name == name &&
      forall j :: 0 <= j < i ==> cd[j].name != name)
  {
    if |cd| == 0 then None
    else if cd[0].name == name then Some(cd[0])
    else
      var r := FindByName(cd[1..], name);
      assert forall i :: 1 <= i < |cd| ==> cd[1..][i - 1] == cd[i];
      r
  }

  /** The total gauge for "Tất cả", else the selected category's gauge, nothing for an
      unknown category. */
  function GaugeFor(cd: seq<CategoryData>, selected: string): (g: Option<Gauge>)
    ensures selected == All ==> g == Some(GaugeOf(TotalSpent(cd), TotalLimit(cd)))
    ensures selected != All ==> (g.None? <==> forall i :: 0 <= i < |cd| ==> cd[i].name != selected)
    ensures selected != All && g.Some? ==> exists i :: (0 <= i < |cd| && cd[i].name == selected &&
      g.value == GaugeOf(cd[i].spent, cd[i].limit))
  {
    if selected == All then Some(GaugeOf(TotalSpent(cd), TotalLimit(cd)))
    else match FindByName(cd, selected)
      case None => None
      case Some(c) => Some(GaugeOf(c.spent, c.limit))
  }

  lemma LimitNamesDistinct(f: seq<Tx>)
    ensures DistinctNames(LimitData(f))
  {
    var cd := LimitData(f);
    assert cd[0].name == "Ăn uống" && cd[1].name == "Đi lại" && cd[2].name == "Giải trí";
  }

  /** With distinct names, the map flags a row exactly when the one entry of its
      category has a gauge over the limit. */
  lemma RowsAgreeWithGauges(cd: seq<CategoryData>, f: seq<Tx>, m: map<string, bool>, shown: seq<Tx>)
    requires DistinctNames(cd)
    requires forall n :: n in m <==> exists i :: 0 <= i < |cd| && cd[i].name == n
    requires forall n :: n in m ==> m[n] == (SpentOn(f, n) > LastLimit(cd, n).value)
    requires forall i :: 0 <= i < |cd| ==> cd[i].spent == SpentOn(f, cd[i].name)
    ensures forall i :: 0 <= i < |shown| ==> (Flag(m, shown[i].category) <==> exists j :: (0 <= j < |cd| &&
      cd[j].name == shown[i].category && GaugeOf(cd[j].spent, cd[j].limit).over))
  {
    forall i | 0 <= i < |shown|
      ensures Flag(m, shown[i].category) <==> exists j :: (0 <= j < |cd| && cd[j].name == shown[i].category &&
        GaugeOf(cd[j].spent, cd[j].limit).over)
    {
      RowFlagMeansOverLimit(cd, f, m, shown[i]);
      var n := shown[i].category;
      if LastLimit(cd, n).Some? {
        var j :| 0 <= j < |cd| && cd[j].name == n && cd[j].limit == LastLimit(cd, n).value;
        assert forall k :: 0 <= k < |cd| && cd[k].name == n ==> k == j;
      }
    }
  }

  /** The data built from the limits covers the month when every transaction's
      category has a limit; its total spent is then the month's whole spending. */
  lemma CoveredTotal(cd: seq<CategoryData>, f: seq<Tx>)
    requires cd == LimitData(f)
    ensures (forall tx :: tx in f ==> HasLimit(tx.category)) ==> SpentAcross(cd, f) == MonthSpending(f)
  {
    if forall tx :: tx in f ==> HasLimit(tx.category) {
      forall k | 0 <= k < |f|
        ensures Listed(cd, f[k].category)
      {
        assert f[k] in f;
        var i :| 0 <= i < |Limits| && Limits[i].0 == f[k].category;
        assert cd[i].name == f[k].category;
      }
      LimitNamesDistinct(f);
      SpentAcrossCovers(cd, f);
    }
  }

  /** One render of the page for the chosen month, year and category. */
  method Render(txs: seq<Tx>, month: int, year: int, selected: string) returns (v: View)
    ensures v.categoryData == LimitData(FilteredByMonthYear(txs, month, year))
    ensures v.totalSpent == TotalSpent(v.categoryData) && v.totalLimit == TotalLimit(v.categoryData)
    ensures (forall tx :: tx in FilteredByMonthYear(txs, month, year) ==> HasLimit(tx.category)) ==>
      v.totalSpent == MonthSpending(FilteredByMonthYear(txs, month, year))
    ensures v.gauge == GaugeFor(v.categoryData, selected)
    ensures |v.rows| == |FilteredTransactions(FilteredByMonthYear(txs, month, year), selected)|
    ensures forall i :: 0 <= i < |v.rows| ==> v.rows[i].tx == FilteredTransactions(FilteredByMonthYear(txs, month, year), selected)[i]
    ensures forall i :: 0 <= i < |v.rows| ==> (v.rows[i].over <==> exists j :: (0 <= j < |v.categoryData| &&
      v.categoryData[j].name == v.rows[i].tx.category && GaugeOf(v.categoryData[j].spent, v.categoryData[j].limit).over))
  {
    var f := FilteredByMonthYear(txs, month, year);
    var spent := SpentByCategory(f);
    var cd := CategoryDataOf(Limits, spent);
    assert cd == LimitData(f);
    var rows := ShownRows(f, selected);
    TotalIsSpentAcross(cd, f);
    CoveredTotal(cd, f);
    v := View(cd, TotalSpent(cd), TotalLimit(cd), GaugeFor(cd, selected), rows);
  }

  /** The table of one render: the chosen category's transactions of the month, each
      flagged exactly when its category's gauge is over the limit. */
  method ShownRows(f: seq<Tx>, selected: string) returns (rows: seq<RowView>)
    ensures |rows| == |FilteredTransactions(f, selected)|
    ensures forall i :: 0 <= i < |rows| ==> rows[i].tx == FilteredTransactions(f, selected)[i]
    ensures forall i :: 0 <= i < |rows| ==> (rows[i].over <==> exists j :: (0 <= j < |LimitData(f)| &&
      LimitData(f)[j].name == rows[i].tx.category && GaugeOf(LimitData(f)[j].spent, LimitData(f)[j].limit).over))
  {
    var cd := LimitData(f);
    var shown := FilteredTransactions(f, selected);
    var m := OverLimitMap(cd, f);
    LimitNamesDistinct(f);
    RowsAgreeWithGauges(cd, f, m, shown);
    rows := Rows(shown, m);
  }

  /** A list already within the month is kept whole. */
  lemma {:induction false} WithinMonthKept(s: seq<Tx>, month: int, year: int)
    requires forall k :: 0 <= k < |s| ==> s[k].month == month && s[k].year == year
    ensures FilteredByMonthYear(s, month, year) == s
  {
    if |s| > 0 {
      WithinMonthKept(s[1..], month, year);
    }
  }

  lemma SpentOnCons(s: seq<Tx>, name: string)
    requires |s| > 0
    ensures SpentOn(s, name) == (if s[0].category == name then Abs(s[0].amount) else 0) + SpentOn(s[1..], name)
  {
    var g := (tx: Tx) => if tx.category == name then Abs(tx.amount) else 0;
    assert SpentOn(s, name) == g(s[0]) + SumBy(s[1..], g);
  }

  /** What each name spends in the built-in transactions. */
  lemma SampleSpent(name: string)
    ensures SpentOn(Sample, name) ==
      (if name == "Ăn uống" then 7000000 else 0) + (if name == "Đi lại" then 500000 else 0) +
      (if name == "Giải trí" then 250000 else 0)
  {
    var s := Sample;
    SpentOnCons(s, name);
    SpentOnCons(s[1..], name);
    SpentOnCons(s[2..], name);
    SpentOnCons(s[3..], name);
    SpentOnCons(s[4..], name);
    assert s[1..][1..] == s[2..] && s[2..][1..] == s[3..] && s[3..][1..] == s[4..] && s[4..][1..] == [];
  }

  lemma SampleInNovember()
    ensures FilteredByMonthYear(Sample, 11, 2025) == Sample
  {
    WithinMonthKept(Sample, 11, 2025);
  }

  lemma NovemberSpending()
    ensures SpentOn(Sample, "Ăn uống") == 7000000
    ensures SpentOn(Sample, "Đi lại") == 500000
    ensures SpentOn(Sample, "Giải trí") == 250000
  {
    SampleSpent("Ăn uống");
    SampleSpent("Đi lại");
    SampleSpent("Giải trí");
  }

  lemma SampleData()
    ensures LimitData(Sample) ==
      [CategoryData("Ăn uống", 7000000, 5000000), CategoryData("Đi lại", 500000, 2000000), CategoryData("Giải trí", 250000, 2000000)]
  {
    NovemberSpending();
    var cd := LimitData(Sample);
    assert cd[0] == CategoryData("Ăn uống", 7000000, 5000000);
    assert cd[1] == CategoryData("Đi lại", 500000, 2000000);
    assert cd[2] == CategoryData("Giải trí", 250000, 2000000);
  }

  /** November 2025 with the built-in transactions: 7,750,000 spent of 9,000,000. */
  lemma NovemberData()
    ensures LimitData(FilteredByMonthYear(Sample, 11, 2025)) ==
      [CategoryData("Ăn uống", 7000000, 5000000), CategoryData("Đi lại", 500000, 2000000), CategoryData("Giải trí", 250000, 2000000)]
  {
    SampleInNovember();
    SampleData();
  }

  lemma SampleTotals()
    ensures TotalSpent([CategoryData("Ăn uống", 7000000, 5000000), CategoryData("Đi lại", 500000, 2000000),
      CategoryData("Giải trí", 250000, 2000000)]) == 7750000
    ensures TotalLimit([CategoryData("Ăn uống", 7000000, 5000000), CategoryData("Đi lại", 500000, 2000000),
      CategoryData("Giải trí", 250000, 2000000)]) == 9000000
  {
  }

  lemma NovemberTotals(cd: seq<CategoryData>)
    requires cd == LimitData(FilteredByMonthYear(Sample, 11, 2025))
    ensures TotalSpent(cd) == 7750000 && TotalLimit(cd) == 9000000
  {
    NovemberData();
    SampleTotals();
  }

  /** The November 2025 gauges: the total at 86 percent is orange, while "Ăn uống"
      alone, at 140 percent, is red with a full bar. */
  lemma NovemberGauges()
    ensures GaugeOf(7750000, 9000000) == Gauge(Finite(86), Finite(86), false, Orange)
    ensures GaugeOf(7000000, 5000000) == Gauge(Finite(140), Finite(100), true, Red)
  {
    RoundedPercentUnique(7750000, 9000000, 86);
    RoundedPercentUnique(7000000, 5000000, 140);
  }
}
