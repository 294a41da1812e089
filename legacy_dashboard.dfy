/** The older dashboard: smallest and largest income and expense amounts with 0 for an
    empty list, and the shown totals, which prefer the server's formatted text and
    otherwise format the local sum with the same suffix rule as the backend. */
module LegacyDashboard {
  import opened Util
  import opened AmountFormat

  datatype Txn = Txn(amount: int, date: string)

  /** What a total card shows: the server's text, or a local sum with its suffix. */
  datatype Shown = ServerText(text: string) | LocalSum(total: int, suffix: Suffix)

  /** `ts.length ? Math.min(...amounts) : 0`, used for both incomes and expenses. */
  function Smallest(ts: seq<Txn>): (m: int)
    ensures |ts| == 0 ==> m == 0
    ensures |ts| > 0 ==> (exists i :: 0 <= i < |ts| && ts[i].amount == m) && forall i :: 0 <= i < |ts| ==> m <= ts[i].amount
  {
    var a := seq(|ts|, i requires 0 <= i < |ts| => ts[i].amount);
    assert forall i :: 0 <= i < |ts| ==> a[i] == ts[i].amount;
    MinOr0(a)
  }

  /** `ts.length ? Math.max(...amounts) : 0`. */
  function Largest(ts: seq<Txn>): (m: int)
    ensures |ts| == 0 ==> m == 0
    ensures |ts| > 0 ==> (exists i :: 0 <= i < |ts| && ts[i].amount == m) && forall i :: 0 <= i < |ts| ==> ts[i].amount <= m
  {
    var a := seq(|ts|, i requires 0 <= i < |ts| => ts[i].amount);
    assert forall i :: 0 <= i < |ts| ==> a[i] == ts[i].amount;
    MaxOr0(a)
  }

  /** The "Min" figure never exceeds the "Max" figure of the same list. */
  lemma SmallestAtMostLargest(ts: seq<Txn>)
    ensures Smallest(ts) <= Largest(ts)
  {
    if |ts| > 0 {
      assert Smallest(ts) <= ts[0].amount <= Largest(ts);
    }
  }

  function Total(ts: seq<Txn>): int
  {
    SumBy(ts, (t: Txn) => t.amount)
  }

  /** `formatted || formatAmount(ts.reduce((a, b) => a + b.amount, 0))`: an empty
      server text falls back to the local sum. */
  function ShownTotal(formatted: string, ts: seq<Txn>): (s: Shown)
    ensures formatted != "" <==> s.ServerText?
    ensures s.ServerText? ==> s.text == formatted
    ensures s.LocalSum? ==> s.total == Total(ts) && s.suffix == SuffixOf(Total(ts))
  {
    if formatted != "" then ServerText(formatted) else LocalSum(Total(ts), SuffixOf(Total(ts)))
  }

  /** Adding an amount to the list moves the fallback total by that amount, and a
      non-negative amount never lowers its suffix. */
  lemma {:induction false} FallbackGrows(ts: seq<Txn>, t: Txn)
    requires t.amount >= 0
    ensures ShownTotal("", ts + [t]).total == ShownTotal("", ts).total + t.amount
    ensures Rank(ShownTotal("", ts).suffix) <= Rank(ShownTotal("", ts + [t]).suffix)
  {
    SumByConcat(ts, [t], (t: Txn) => t.amount);
    SuffixMonotone(Total(ts), Total(ts + [t]));
  }
}
