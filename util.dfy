/** Small value types and sequence functions shared by the controllers and the pages:
    the JavaScript `filter`/`reduce`/`Math.min`/`Math.max`/`Math.round` idioms the
    source uses over lists of integer amounts. */
module Util {

  datatype Option<+T> = None | Some(value: T)

  /** A calendar date already split into the fields that `new Date(d).getFullYear()`,
      `getMonth() + 1` and `getDate()` return. */
  datatype Date = Date(year: int, month: int, day: int)

  /** JavaScript truthiness of a request field that is a number when present: a
      missing field and the number 0 are both falsy. */
  predicate Truthy(x: Option<int>)
  {
    x.Some? && x.value != 0
  }

  function Abs(x: int): nat
  {
    if x < 0 then -x else x
  }

  function Min(a: int, b: int): int
  {
    if a <= b then a else b
  }

  /** `s.filter(p)`: the elements satisfying `p`, in their original order. */
  function Filter<T(!new)>(s: seq<T>, p: T -> bool): (r: seq<T>)
    ensures |r| <= |s|
    ensures forall x :: x in r <==> x in s && p(x)
    ensures forall x :: multiset(r)[x] == if p(x) then multiset(s)[x] else 0
  {
    if |s| == 0 then []
    else
      assert s == [s[0]] + s[1..];
      (if p(s[0]) then [s[0]] else []) + Filter(s[1..], p)
  }

  /** Filtering a concatenation filters each part and keeps them in order. */
  lemma {:induction false} FilterConcat<T(!new)>(a: seq<T>, b: seq<T>, p: T -> bool)
    ensures Filter(a + b, p) == Filter(a, p) + Filter(b, p)
  {
    if |a| == 0 {
      assert a + b == b;
    } else {
      assert (a + b)[1..] == a[1..] + b;
      FilterConcat(a[1..], b, p);
    }
  }

  /** `r` is `s` with some elements left out: what is kept stays in its order. */
  ghost predicate Embeds<T>(r: seq<T>, s: seq<T>)
    decreases |s|
  {
    if |r| == 0 then true
    else if |s| == 0 then false
    else (r[0] == s[0] && Embeds(r[1..], s[1..])) || Embeds(r, s[1..])
  }

  lemma {:induction false} EmbedsSelf<T>(s: seq<T>)
    ensures Embeds(s, s)
  {
    if |s| > 0 {
      EmbedsSelf(s[1..]);
    }
  }

  /** `filter` keeps the order of what it keeps. */
  lemma {:induction false} FilterKeepsOrder<T(!new)>(s: seq<T>, p: T -> bool)
    ensures Embeds(Filter(s, p), s)
  {
    if |s| > 0 {
      FilterKeepsOrder(s[1..], p);
      var r := Filter(s, p);
      if p(s[0]) {
        assert r[0] == s[0] && r[1..] == Filter(s[1..], p);
      } else {
        assert r == Filter(s[1..], p);
      }
    }
  }

  /** `s.reduce((acc, x) => acc + f(x), 0)`. */
  function SumBy<T>(s: seq<T>, f: T -> int): int
  {
    if |s| == 0 then 0 else f(s[0]) + SumBy(s[1..], f)
  }

  lemma {:induction false} SumByConcat<T>(a: seq<T>, b: seq<T>, f: T -> int)
    ensures SumBy(a + b, f) == SumBy(a, f) + SumBy(b, f)
  {
    if |a| == 0 {
      assert a + b == b;
    } else {
      assert (a + b)[1..] == a[1..] + b;
      SumByConcat(a[1..], b, f);
    }
  }

  /** Extending a prefix by one element adds that element's share. */
  lemma SumByPrefix<T>(s: seq<T>, i: nat, f: T -> int)
    requires i < |s|
    ensures SumBy(s[..i + 1], f) == SumBy(s[..i], f) + f(s[i])
  {
    assert s[..i + 1] == s[..i] + [s[i]];
    SumByConcat(s[..i], [s[i]], f);
  }

  /** Replacing one element changes the sum by the difference of the two shares. */
  lemma {:induction false} SumByUpdate<T>(s: seq<T>, i: nat, x: T, f: T -> int)
    requires i < |s|
    ensures SumBy(s[i := x], f) == SumBy(s, f) - f(s[i]) + f(x)
  {
    if i > 0 {
      assert s[i := x][1..] == s[1..][i - 1 := x];
      SumByUpdate(s[1..], i - 1, x, f);
    }
  }

  /** Summing the filtered list is summing the whole list with the rejected elements
      counted as 0: `s.filter(p).reduce(+f)`. */
  lemma {:induction false} SumByFilter<T(!new)>(s: seq<T>, p: T -> bool, f: T -> int, g: T -> int)
    requires forall x :: g(x) == if p(x) then f(x) else 0
    ensures SumBy(Filter(s, p), f) == SumBy(s, g)
  {
    if |s| > 0 {
      SumByFilter(s[1..], p, f, g);
      SumByConcat(if p(s[0]) then [s[0]] else [], Filter(s[1..], p), f);
    }
  }

  /** `s.length ? Math.min(...s) : 0`. */
  function MinOr0(s: seq<int>): (r: int)
    ensures |s| == 0 ==> r == 0
    ensures |s| > 0 ==> r in s && forall i :: 0 <= i < |s| ==> r <= s[i]
  {
    if |s| == 0 then 0
    else if |s| == 1 then s[0]
    else
      var m := MinOr0(s[1..]);
      assert forall i :: 1 <= i < |s| ==> s[i] == s[1..][i - 1];
      if s[0] <= m then s[0] else m
  }

  /** `s.length ? Math.max(...s) : 0`. */
  function MaxOr0(s: seq<int>): (r: int)
    ensures |s| == 0 ==> r == 0
    ensures |s| > 0 ==> r in s && forall i :: 0 <= i < |s| ==> s[i] <= r
  {
    if |s| == 0 then 0
    else if |s| == 1 then s[0]
    else
      var m := MaxOr0(s[1..]);
      assert forall i :: 1 <= i < |s| ==> s[i] == s[1..][i - 1];
      if s[0] >= m then s[0] else m
  }

  /** `Math.round(part / whole * 100)` computed exactly: JavaScript rounds half-way
      values up (towards +infinity), so the result is the integer r with
      r - 1/2 <= 100 * part / whole < r + 1/2. */
  function RoundedPercent(part: int, whole: int): (r: int)
    requires whole != 0
    ensures whole > 0 ==> (2 * r - 1) * whole <= 200 * part < (2 * r + 1) * whole
    ensures whole < 0 ==> (2 * r - 1) * -whole <= -200 * part < (2 * r + 1) * -whole
  {
    var n := if whole > 0 then part else -part;
    var d := Abs(whole);
    var q := (200 * n + d) / (2 * d);
    assert 200 * n + d == 2 * d * q + (200 * n + d) % (2 * d);
    assert 2 * d * q <= 200 * n + d < 2 * d * q + 2 * d;
    q
  }

  /** A share of a positive whole that is no larger than the whole is 0..100 percent. */
  lemma PercentWithinRange(part: int, whole: int)
    requires 0 <= part <= whole && whole > 0
    ensures 0 <= RoundedPercent(part, whole) <= 100
  {
    var r := RoundedPercent(part, whole);
    if r > 100 {
      MulMonotone(201, 2 * r - 1, whole);
      assert false;
    }
    if r < 0 {
      MulMonotone(2 * r + 1, -1, whole);
      assert false;
    }
  }

  /** Only one integer lies within half a unit of `100 * part / whole`. */
  lemma RoundedPercentUnique(part: int, whole: int, r: int)
    requires whole > 0 && (2 * r - 1) * whole <= 200 * part < (2 * r + 1) * whole
    ensures RoundedPercent(part, whole) == r
  {
    var q := RoundedPercent(part, whole);
    if q < r {
      MulMonotone(2 * q + 1, 2 * r - 1, whole);
      assert false;
    }
    if q > r {
      MulMonotone(2 * r + 1, 2 * q - 1, whole);
      assert false;
    }
  }

  lemma MulMonotone(a: int, b: int, w: int)
    requires a <= b && w >= 0
    ensures a * w <= b * w
  {
    assert b * w - a * w == (b - a) * w;
  }

  /** `s.map(g)` whose callback may throw (`None`): the mapped list, or the exception
      of the first element whose callback throws. */
  function MapOrThrow<A, B>(s: seq<A>, g: A -> Option<B>): (r: Option<seq<B>>)
    ensures r.None? <==> exists i :: 0 <= i < |s| && g(s[i]).None?
    ensures r.Some? ==> |r.value| == |s| && forall i :: 0 <= i < |s| ==> g(s[i]) == Some(r.value[i])
  {
    if |s| == 0 then Some([])
    else
      var first := g(s[0]);
      var rest := MapOrThrow(s[1..], g);
      assert forall i :: 1 <= i < |s| ==> s[i] == s[1..][i - 1];
      if first.None? then None
      else if rest.None? then None
      else
        var r := [first.value] + rest.value;
        assert forall i :: 1 <= i < |s| ==> r[i] == rest.value[i - 1];
        Some(r)
  }

  /** `s.map(x => x === target ? y : x)` keyed by a predicate: the matching entries are
      replaced, the others kept, the length unchanged. */
  function ReplaceWhere<T>(s: seq<T>, p: T -> bool, y: T): (r: seq<T>)
    ensures |r| == |s|
    ensures forall i :: 0 <= i < |s| ==> r[i] == if p(s[i]) then y else s[i]
  {
    seq(|s|, i requires 0 <= i < |s| => if p(s[i]) then y else s[i])
  }
}
