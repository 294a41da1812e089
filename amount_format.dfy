/** The choice of suffix in `formatAmount`: the first threshold the value reaches among
    one billion, one million and one thousand, or none. The digits printed before the
    suffix are not modelled. */
module AmountFormat {

  datatype Suffix = Billions | Millions | Thousands | Plain

  const Billion: int := 1_000_000_000
  const Million: int := 1_000_000
  const Thousand: int := 1_000

  function SuffixOf(v: int): (s: Suffix)
    ensures s == Billions <==> v >= Billion
    ensures s == Millions <==> Million <= v < Billion
    ensures s == Thousands <==> Thousand <= v < Million
    ensures s == Plain <==> v < Thousand
  {
    if v >= Billion then Billions
    else if v >= Million then Millions
    else if v >= Thousand then Thousands
    else Plain
  }

  /** The magnitude a suffix stands for, used to compare suffixes. */
  function Rank(s: Suffix): nat
  {
    match s
    case Plain => 0
    case Thousands => 1
    case Millions => 2
    case Billions => 3
  }

  /** A larger value never gets a smaller suffix. */
  lemma SuffixMonotone(a: int, b: int)
    requires a <= b
    ensures Rank(SuffixOf(a)) <= Rank(SuffixOf(b))
  {
  }
}
