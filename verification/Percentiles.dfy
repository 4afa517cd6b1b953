/** Nearest-rank percentiles of a sorted list of latencies, rounded to three decimals. */
module Percentiles {

  predicate Sorted(xs: seq<real>)
  {
    forall i, j | 0 <= i <= j < |xs| :: xs[i] <= xs[j]
  }

  function Insert(x: real, xs: seq<real>): seq<real>
  {
    if xs == [] || x <= xs[0] then [x] + xs
    else [xs[0]] + Insert(x, xs[1..])
  }

  function Sort(xs: seq<real>): seq<real>
  {
    if xs == [] then [] else Insert(xs[0], Sort(xs[1..]))
  }

  /** How many of `xs` are at most `v`. */
  function CountAtMost(xs: seq<real>, v: real): nat
  {
    if xs == [] then 0
    else (if xs[0] <= v then 1 else 0) + CountAtMost(xs[1..], v)
  }

  function Ceiling(x: real): int
  {
    -((-x).Floor)
  }

  function Max(a: int, b: int): int
  {
    if a >= b then a else b
  }

  /** The share of `n` samples that a percentile asks for. */
  function Share(n: nat, percentile: real): real
  {
    percentile * n as real
  }

  function RankIndex(n: nat, percentile: real): int
  {
    Max(0, Ceiling(Share(n, percentile)) - 1)
  }

  /** Round to three decimals, a tie going to the even neighbour. */
  function Round3(x: real): real
  {
    RoundHalfEven(x * 1000.0) as real / 1000.0
  }

  function RoundHalfEven(y: real): int
  {
    var below := y.Floor;
    var rest := y - below as real;
    if rest < 0.5 || (rest == 0.5 && below % 2 == 0) then below else below + 1
  }

  /** The value of a percentile before rounding. */
  function Ranked(values: seq<real>, percentile: real): real
    requires values != [] && percentile <= 1.0
  {
    RankIndexInRange(|values|, percentile);
    values[RankIndex(|values|, percentile)]
  }

  function Percentile(values: seq<real>, percentile: real): real
    requires percentile <= 1.0
  {
    if values == [] then 0.0 else Round3(Ranked(values, percentile))
  }

  // ---------- sorting ----------

  lemma {:induction false} InsertAdds(x: real, xs: seq<real>)
    ensures multiset(Insert(x, xs)) == multiset(xs) + multiset{x}
    ensures |Insert(x, xs)| == |xs| + 1
    ensures Insert(x, xs)[0] == x || (xs != [] && Insert(x, xs)[0] == xs[0])
  {
    if xs != [] && x > xs[0] {
      InsertAdds(x, xs[1..]);
      assert xs == [xs[0]] + xs[1..];
    }
  }

  lemma SortedCons(x: real, xs: seq<real>)
    requires Sorted(xs) && (xs != [] ==> x <= xs[0])
    ensures Sorted([x] + xs)
  {}

  lemma {:induction false} InsertSorts(x: real, xs: seq<real>)
    requires Sorted(xs)
    ensures Sorted(Insert(x, xs))
  {
    if xs == [] || x <= xs[0] {
      SortedCons(x, xs);
    } else {
      InsertSorts(x, xs[1..]);
      InsertAdds(x, xs[1..]);
      SortedCons(xs[0], Insert(x, xs[1..]));
    }
  }

  lemma {:induction false} SortSorts(xs: seq<real>)
    ensures Sorted(Sort(xs)) && multiset(Sort(xs)) == multiset(xs) && |Sort(xs)| == |xs|
  {
    if xs != [] {
      SortSorts(xs[1..]);
      InsertSorts(xs[0], Sort(xs[1..]));
      InsertAdds(xs[0], Sort(xs[1..]));
      assert xs == [xs[0]] + xs[1..];
    }
  }

  lemma HeadAndTail(xs: seq<real>)
    requires xs != []
    ensures xs[0] in multiset(xs) && multiset(xs[1..]) == multiset(xs) - multiset{xs[0]}
  {
    assert xs == [xs[0]] + xs[1..];
  }

  lemma HeadIsLeast(xs: seq<real>, x: real)
    requires Sorted(xs) && x in multiset(xs)
    ensures xs != [] && xs[0] <= x
  {}

  lemma SameHeadsAndTails(xs: seq<real>, ys: seq<real>)
    requires Sorted(xs) && Sorted(ys) && multiset(xs) == multiset(ys) && xs != []
    ensures ys != [] && xs[0] == ys[0] && multiset(xs[1..]) == multiset(ys[1..])
  {
    HeadAndTail(xs);
    HeadIsLeast(ys, xs[0]);
    HeadAndTail(ys);
    HeadIsLeast(xs, ys[0]);
  }

  /** There is only one way to sort: the result does not depend on the order the samples came in. */
  lemma {:induction false} SortingIsUnique(xs: seq<real>, ys: seq<real>)
    requires Sorted(xs) && Sorted(ys) && multiset(xs) == multiset(ys)
    ensures xs == ys
  {
    if xs == [] {
      assert |multiset(ys)| == 0;
    } else {
      SameHeadsAndTails(xs, ys);
      SortedTail(xs);
      SortedTail(ys);
      hide Sorted;
      SortingIsUnique(xs[1..], ys[1..]);
      assert xs == [xs[0]] + xs[1..];
      assert ys == [ys[0]] + ys[1..];
    }
  }

  lemma SortedTail(xs: seq<real>)
    requires Sorted(xs) && xs != []
    ensures Sorted(xs[1..])
  {}

  lemma PercentileIgnoresOrder(xs: seq<real>, ys: seq<real>, percentile: real)
    requires multiset(xs) == multiset(ys) && percentile <= 1.0
    ensures Percentile(Sort(xs), percentile) == Percentile(Sort(ys), percentile)
  {
    SortSorts(xs);
    SortSorts(ys);
    SortingIsUnique(Sort(xs), Sort(ys));
  }

  // ---------- nearest rank ----------

  lemma CeilingIsMonotone(a: real, b: real)
    requires a <= b
    ensures Ceiling(a) <= Ceiling(b)
  {}

  lemma ScaleIsMonotone(p: real, q: real, n: nat)
    requires p <= q
    ensures Share(n, p) <= Share(n, q)
  {}

  lemma ShareIsFraction(n: nat, percentile: real)
    ensures Share(n, percentile) == percentile * n as real
  {}

  lemma RankIndexInRange(n: nat, percentile: real)
    requires n > 0 && percentile <= 1.0
    ensures 0 <= RankIndex(n, percentile) < n
  {}

  /** The index is the least whose rank covers `Share(n, percentile)` samples. */
  lemma RankIndexIsLeast(n: nat, percentile: real)
    requires n > 0 && percentile <= 1.0
    ensures var i := RankIndex(n, percentile);
            && 0 <= i < n
            && Share(n, percentile) <= i as real + 1.0
            && (i == 0 || i as real < Share(n, percentile))
  {}

  lemma RankIndexIsMonotone(n: nat, p: real, q: real)
    requires p <= q
    ensures RankIndex(n, p) <= RankIndex(n, q)
  {
    ScaleIsMonotone(p, q, n);
    CeilingIsMonotone(Share(n, p), Share(n, q));
  }

  lemma {:induction false} CountIsMonotone(xs: seq<real>, v: real, w: real)
    requires v <= w
    ensures CountAtMost(xs, v) <= CountAtMost(xs, w) <= |xs|
  {
    if xs != [] {
      CountIsMonotone(xs[1..], v, w);
    }
  }

  lemma {:induction false} CountSplits(xs: seq<real>, ys: seq<real>, v: real)
    ensures CountAtMost(xs + ys, v) == CountAtMost(xs, v) + CountAtMost(ys, v)
  {
    if xs == [] {
      assert xs + ys == ys;
    } else {
      CountSplits(xs[1..], ys, v);
      assert (xs + ys)[1..] == xs[1..] + ys;
    }
  }

  lemma {:induction false} CountAll(xs: seq<real>, v: real)
    requires forall i | 0 <= i < |xs| :: xs[i] <= v
    ensures CountAtMost(xs, v) == |xs|
  {
    if xs != [] {
      CountAll(xs[1..], v);
    }
  }

  lemma {:induction false} CountNone(xs: seq<real>, v: real)
    requires forall i | 0 <= i < |xs| :: v < xs[i]
    ensures CountAtMost(xs, v) == 0
  {
    if xs != [] {
      CountNone(xs[1..], v);
    }
  }

  lemma MoreThanIndexAreAtMost(xs: seq<real>, i: nat)
    requires Sorted(xs) && i < |xs|
    ensures CountAtMost(xs, xs[i]) >= i + 1
  {
    hide CountAtMost;
    CountSplits(xs[..i + 1], xs[i + 1..], xs[i]);
    CountAll(xs[..i + 1], xs[i]);
    assert xs == xs[..i + 1] + xs[i + 1..];
  }

  lemma NoMoreThanIndexAreBelow(xs: seq<real>, i: nat, w: real)
    requires Sorted(xs) && i < |xs| && w < xs[i]
    ensures CountAtMost(xs, w) <= i
  {
    hide CountAtMost;
    CountSplits(xs[..i], xs[i..], w);
    CountNone(xs[i..], w);
    CountIsMonotone(xs[..i], w, w);
    assert xs == xs[..i] + xs[i..];
  }

  /** Taking one value out takes it out of the count and of the multiset. */
  lemma CountWithout(ys: seq<real>, k: nat, v: real)
    requires k < |ys|
    ensures var rest := ys[..k] + ys[k + 1..];
            && CountAtMost(ys, v) == CountAtMost(rest, v) + CountAtMost([ys[k]], v)
            && multiset(rest) == multiset(ys) - multiset{ys[k]} && |rest| == |ys| - 1
  {
    hide CountAtMost;
    assert ys == ys[..k] + ([ys[k]] + ys[k + 1..]);
    CountSplits(ys[..k], ys[k + 1..], v);
    CountSplits(ys[..k], [ys[k]] + ys[k + 1..], v);
    CountSplits([ys[k]], ys[k + 1..], v);
  }

  lemma {:induction false} CountOfMultiset(xs: seq<real>, ys: seq<real>, v: real)
    requires multiset(xs) == multiset(ys)
    ensures CountAtMost(xs, v) == CountAtMost(ys, v)
    decreases |xs|
  {
    hide CountAtMost;
    if xs == [] {
      assert |multiset(ys)| == 0;
      assert xs == ys;
    } else {
      assert xs[0] in multiset(ys);
      var k :| 0 <= k < |ys| && ys[k] == xs[0];
      CountWithout(xs, 0, v);
      CountWithout(ys, k, v);
      CountOfMultiset(xs[..0] + xs[1..], ys[..k] + ys[k + 1..], v);
    }
  }

  /** No sample below value `i` has more than `i` samples at or below it; below value 0 there is none. */
  lemma SmallerSamplesRankLower(sorted: seq<real>, i: nat, w: real)
    requires Sorted(sorted) && i < |sorted| && w in sorted && w < sorted[i]
    ensures 0 < CountAtMost(sorted, w) <= i
  {
    NoMoreThanIndexAreBelow(sorted, i, w);
    var k :| 0 <= k < |sorted| && sorted[k] == w;
    MoreThanIndexAreAtMost(sorted, k);
  }

  /** `v` is the smallest of `xs` that at least `need` of them do not exceed. */
  predicate IsLeastCovering(xs: seq<real>, need: real, v: real)
  {
    && v in xs
    && need <= CountAtMost(xs, v) as real
    && forall w | w in xs && need <= CountAtMost(xs, w) as real :: v <= w
  }

  /** `v` is the smallest sample that at least the given fraction of the samples do not exceed. */
  predicate IsNearestRank(xs: seq<real>, percentile: real, v: real)
  {
    IsLeastCovering(xs, percentile * |xs| as real, v)
  }

  lemma RankedIsLeastCovering(xs: seq<real>, percentile: real)
    requires xs != [] && percentile <= 1.0
    ensures Sort(xs) != []
    ensures forall v :: IsLeastCovering(xs, Share(|xs|, percentile), v) <==> v == Ranked(Sort(xs), percentile)
  {
    hide RankIndex, Sort, CountAtMost, Share;
    SortSorts(xs);
    var sorted, need := Sort(xs), Share(|xs|, percentile);
    RankIndexIsLeast(|xs|, percentile);
    var i := RankIndex(|xs|, percentile);
    var v := sorted[i];
    assert v in multiset(sorted);
    MoreThanIndexAreAtMost(sorted, i);
    CountOfMultiset(xs, sorted, v);
    forall w | w in xs && need <= CountAtMost(xs, w) as real
      ensures v <= w
    {
      CountOfMultiset(xs, sorted, w);
      assert w in multiset(sorted);
      if w < v {
        SmallerSamplesRankLower(sorted, i, w);
      }
    }
  }

  /** The ranked value is the nearest rank, and nothing else is. */
  lemma RankedIsNearestRank(xs: seq<real>, percentile: real)
    requires xs != [] && percentile <= 1.0
    ensures Sort(xs) != []
    ensures forall v :: IsNearestRank(xs, percentile, v) <==> v == Ranked(Sort(xs), percentile)
  {
    RankedIsLeastCovering(xs, percentile);
    ShareIsFraction(|xs|, percentile);
    hide IsLeastCovering, Ranked, Sort, Share;
  }

  // ---------- rounding ----------

  lemma RoundHalfEvenIsMonotone(a: real, b: real)
    requires a <= b
    ensures RoundHalfEven(a) <= RoundHalfEven(b)
  {}

  lemma Round3IsMonotone(a: real, b: real)
    requires a <= b
    ensures Round3(a) <= Round3(b)
  {
    RoundHalfEvenIsMonotone(a * 1000.0, b * 1000.0);
  }

  lemma Round3IsNear(x: real)
    ensures -0.0005 <= Round3(x) - x <= 0.0005
  {}

  /** Rounding takes the nearest of all whole thousandths, and of two equally near ones the even one. */
  lemma Round3IsNearest(x: real, k: int)
    ensures Round3(x) == k as real / 1000.0 <==>
            && -0.5 <= x * 1000.0 - k as real <= 0.5
            && ((x * 1000.0 - k as real == 0.5 || x * 1000.0 - k as real == -0.5) ==> k % 2 == 0)
  {
    HalfEvenIsNearest(x * 1000.0, k);
    var n := RoundHalfEven(x * 1000.0);
    assert n as real / 1000.0 == k as real / 1000.0 <==> n == k;
  }

  lemma HalfEvenIsNearest(y: real, k: int)
    ensures RoundHalfEven(y) == k <==>
            && -0.5 <= y - k as real <= 0.5
            && ((y - k as real == 0.5 || y - k as real == -0.5) ==> k % 2 == 0)
  {}

  lemma Round3IsThousandth(x: real) returns (k: int)
    ensures Round3(x) == k as real / 1000.0
  {
    k := RoundHalfEven(x * 1000.0);
  }

  /** Higher percentiles are never smaller, and none exceeds the rounded maximum. */
  lemma PercentilesAreOrdered(xs: seq<real>, p: real, q: real, top: real)
    requires p <= q <= 1.0
    requires forall x | x in xs :: x <= top
    ensures Percentile(Sort(xs), p) <= Percentile(Sort(xs), q)
    ensures xs != [] ==> Percentile(Sort(xs), q) <= Round3(top)
  {
    hide RankIndex, Round3, Sort;
    SortSorts(xs);
    if xs != [] {
      var sorted := Sort(xs);
      RankIndexInRange(|xs|, p);
      RankIndexInRange(|xs|, q);
      RankIndexIsMonotone(|xs|, p, q);
      Round3IsMonotone(Ranked(sorted, p), Ranked(sorted, q));
      assert Ranked(sorted, q) in multiset(sorted) && Ranked(sorted, q) in xs;
      Round3IsMonotone(Ranked(sorted, q), top);
    }
  }
}
