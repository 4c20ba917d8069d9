/**
 Repair-round convergence metrics: nearest-rank percentiles and the cap-coverage curve
 of the legacy-breakage matrix, over the reals.
 */
module NearestRank {

  datatype Option<T> = None | Some(value: T)

  const CAP_CANDIDATES: seq<int> := [1, 2, 3, 4, 6, 8, 12, 16, 24, 32, 48]

  ghost predicate IsSorted(s: seq<int>) { forall i, j :: 0 <= i < j < |s| ==> s[i] <= s[j] }

  function Insert(x: int, s: seq<int>): (r: seq<int>)
    ensures |r| == |s| + 1
  {
    if s == [] || x <= s[0] then [x] + s else [s[0]] + Insert(x, s[1..])
  }

  /** `sorted(values)`. */
  function Sorted(values: seq<int>): (r: seq<int>)
    ensures |r| == |values|
  {
    if values == [] then [] else Insert(values[0], Sorted(values[1..]))
  }

  /** How many values do not exceed `cap`. */
  function CountLE(values: seq<int>, cap: int): (n: nat)
    ensures n <= |values|
  {
    if values == [] then 0 else (if values[0] <= cap then 1 else 0) + CountLE(values[1..], cap)
  }

  lemma {:induction false} InsertFacts(x: int, s: seq<int>, cap: int)
    requires IsSorted(s)
    ensures IsSorted(Insert(x, s)) && (forall y :: y in Insert(x, s) <==> y == x || y in s)
    ensures CountLE(Insert(x, s), cap) == CountLE([x] + s, cap)
  {
    assert ([x] + s)[1..] == s;
    if s != [] && x > s[0] {
      InsertFacts(x, s[1..], cap);
      var rest := Insert(x, s[1..]);
      assert Insert(x, s) == [s[0]] + rest && ([s[0]] + rest)[1..] == rest;
      assert ([x] + s[1..])[1..] == s[1..];
      forall i, j | 0 <= i < j < |Insert(x, s)|
        ensures Insert(x, s)[i] <= Insert(x, s)[j]
      {
        if i == 0 { assert rest[j - 1] in rest; }
      }
      assert forall y :: y in s <==> y == s[0] || y in s[1..];
    }
  }

  lemma {:induction false} SortedFacts(values: seq<int>, cap: int)
    ensures IsSorted(Sorted(values)) && CountLE(Sorted(values), cap) == CountLE(values, cap)
  {
    if values != [] {
      SortedFacts(values[1..], cap);
      InsertFacts(values[0], Sorted(values[1..]), cap);
      assert ([values[0]] + Sorted(values[1..]))[1..] == Sorted(values[1..]);
    }
  }

  /** In a sorted sequence the count reaches `rank` exactly at the element of that rank. */
  lemma {:induction false} CountAtRank(s: seq<int>, cap: int, rank: nat)
    requires IsSorted(s) && 1 <= rank <= |s|
    ensures CountLE(s, cap) >= rank <==> s[rank - 1] <= cap
  {
    if s[0] > cap {
      NoneBelow(s, cap);
    } else if rank > 1 {
      CountAtRank(s[1..], cap, rank - 1);
    }
  }

  lemma {:induction false} NoneBelow(s: seq<int>, cap: int)
    requires IsSorted(s) && s != [] && s[0] > cap
    ensures CountLE(s, cap) == 0
  {
    if |s| > 1 { NoneBelow(s[1..], cap); }
  }

  function Ceil(x: real): (c: int)
    ensures c as real >= x && (c - 1) as real < x
  {
    -((-x).Floor)
  }

  function Rank(n: nat, percentile: real): (r: int)
    ensures r >= 1
  {
    var c := Ceil(percentile * n as real);
    if c >= 1 then c else 1
  }

  lemma RankInRange(n: nat, percentile: real)
    requires n > 0 && percentile <= 1.0
    ensures Rank(n, percentile) <= n
  {
    var x := percentile * n as real;
    ScaledDown(percentile, n as real);
    assert (Ceil(x) - 1) as real < n as real;
  }

  lemma ScaledDown(p: real, n: real)
    requires p <= 1.0 && n >= 0.0
    ensures p * n <= n
  {
    assert (1.0 - p) * n >= 0.0;
  }

  /** `nearest_rank`; a percentile above 1 would index past the end. */
  function Nearest(values: seq<int>, percentile: real): Option<int>
    requires percentile <= 1.0
  {
    if values == [] then None
    else
      RankInRange(|values|, percentile);
      Some(Sorted(values)[Rank(|values|, percentile) - 1])
  }

  function Coverage(values: seq<int>, cap: int): real
  {
    if values == [] then 0.0 else CountLE(values, cap) as real / |values| as real
  }

  lemma AtLeastCeil(k: int, x: real)
    ensures k >= Ceil(x) <==> k as real >= x
  {
    if k < Ceil(x) { assert k as real <= (Ceil(x) - 1) as real; }
  }

  lemma CoverageScaled(k: nat, n: nat, p: real)
    requires n > 0
    ensures k as real / n as real >= p <==> k as real >= p * n as real
  {
    var t := n as real;
    var q := k as real / t;
    assert q * t == k as real;
    if q >= p { assert (q - p) * t >= 0.0; assert (q - p) * t == q * t - p * t; }
    if q < p { assert (p - q) * t > 0.0; assert (p - q) * t == p * t - q * t; }
  }

  lemma RankIsCeil(n: nat, p: real)
    requires n > 0 && 0.0 < p <= 1.0
    ensures Rank(n, p) == Ceil(p * n as real) && 1 <= Rank(n, p) <= n
  {
    RankInRange(n, p);
    PositiveProduct(p, n as real, p * n as real);
  }

  lemma PositiveProduct(p: real, n: real, product: real)
    requires p > 0.0 && n > 0.0 && product == p * n
    ensures product > 0.0
  {
  }

  lemma FractionReaches(k: nat, n: nat, p: real)
    requires n > 0 && 0.0 < p <= 1.0
    ensures k as real / n as real >= p <==> k >= Rank(n, p)
  {
    RankIsCeil(n, p);
    AtLeastCeil(k, p * n as real);
    CoverageScaled(k, n, p);
  }

  /** A cap covers at least the fraction `p` of the runs exactly when it reaches the
      nearest-rank percentile `p`. */
  lemma CoverageIffPercentile(values: seq<int>, p: real, cap: int)
    requires values != [] && 0.0 < p <= 1.0
    ensures Coverage(values, cap) >= p <==> cap >= Nearest(values, p).value
  {
    RankIsCeil(|values|, p);
    SortedFacts(values, cap);
    CountAtRank(Sorted(values), cap, Rank(|values|, p));
    FractionReaches(CountLE(values, cap), |values|, p);
  }

  /** Percentiles are ordered, and the highest is the maximum. */
  lemma PercentilesOrdered(values: seq<int>, p: real, q: real)
    requires values != [] && p <= q <= 1.0
    ensures Nearest(values, p).value <= Nearest(values, q).value
    ensures forall v :: v in values ==> v <= Nearest(values, 1.0).value
    ensures Nearest(values, q).value in values
  {
    var n := |values|;
    RankInRange(n, p);
    RankInRange(n, q);
    RankInRange(n, 1.0);
    SortedFacts(values, 0);
    RankMonotone(n, p, q);
    SortedSame(values);
    assert Rank(n, 1.0) == n by { assert 1.0 * n as real == n as real; }
  }

  lemma RankMonotone(n: nat, p: real, q: real)
    requires p <= q
    ensures Rank(n, p) <= Rank(n, q)
  {
    var x, y := p * n as real, q * n as real;
    assert (q - p) * n as real >= 0.0;
    assert (q - p) * n as real == y - x;
    AtLeastCeil(Ceil(y), x);
  }

  lemma {:induction false} SortedSame(values: seq<int>)
    ensures forall v :: v in values <==> v in Sorted(values)
  {
    if values != [] {
      SortedSame(values[1..]);
      SortedFacts(values[1..], 0);
      InsertFacts(values[0], Sorted(values[1..]), 0);
      assert forall v :: v in values <==> v == values[0] || v in values[1..];
    }
  }

  lemma {:induction false} CountMonotone(values: seq<int>, a: int, b: int)
    requires a <= b
    ensures CountLE(values, a) <= CountLE(values, b)
  {
    if values != [] { CountMonotone(values[1..], a, b); }
  }

  datatype CapPoint = CapPoint(cap: int, covered: nat, total: nat, coverage: real)

  /** The cap curve of `convergence_metrics`: one point per candidate, never decreasing. */
  method CapCurve(rounds: seq<int>) returns (curve: seq<CapPoint>)
    ensures |curve| == |CAP_CANDIDATES|
    ensures forall i :: 0 <= i < |curve| ==>
              curve[i] == CapPoint(CAP_CANDIDATES[i], CountLE(rounds, CAP_CANDIDATES[i]), |rounds|,
                                   Coverage(rounds, CAP_CANDIDATES[i]))
    ensures forall i, j :: 0 <= i < j < |curve| ==> curve[i].covered <= curve[j].covered <= |rounds|
  {
    curve := [];
    for i := 0 to |CAP_CANDIDATES|
      invariant |curve| == i
      invariant forall k :: 0 <= k < i ==>
                  curve[k] == CapPoint(CAP_CANDIDATES[k], CountLE(rounds, CAP_CANDIDATES[k]), |rounds|,
                                       Coverage(rounds, CAP_CANDIDATES[k]))
    {
      var cap, covered := CAP_CANDIDATES[i], 0;
      for k := 0 to |rounds|
        invariant covered + CountLE(rounds[k..], cap) == CountLE(rounds, cap)
      {
        assert rounds[k..][0] == rounds[k] && rounds[k..][1..] == rounds[k + 1..];
        if rounds[k] <= cap { covered := covered + 1; }
      }
      curve := curve + [CapPoint(cap, covered, |rounds|,
                                 if rounds != [] then covered as real / |rounds| as real else 0.0)];
    }
    forall i, j | 0 <= i < j < |curve|
      ensures curve[i].covered <= curve[j].covered
    {
      assert CAP_CANDIDATES[i] <= CAP_CANDIDATES[j];
      CountMonotone(rounds, CAP_CANDIDATES[i], CAP_CANDIDATES[j]);
    }
  }
}
