/** Splitting and allocating money in decimal/money.go.  Amounts are exact reals. */
module Moneys {
  import opened Arithmetic

  const CENT: real := 0.01

  /** Decimal.Floor */
  function Floor(x: real): real {
    x.Floor as real
  }

  /** Decimal.IntPart, which drops the fraction. */
  function IntPart(x: real): int {
    if x >= 0.0 then x.Floor else -((-x).Floor)
  }

  /** Decimal.Round(2), which rounds halves away from zero. */
  function Round2(x: real): real {
    if x >= 0.0 then (x * 100.0 + 0.5).Floor as real / 100.0
    else -((-x * 100.0 + 0.5).Floor as real / 100.0)
  }

  function SumOf(s: seq<real>): real {
    if s == [] then 0.0 else SumOf(s[..|s| - 1]) + s[|s| - 1]
  }

  function Times(n: int, x: real): real {
    n as real * x
  }

  lemma OneMore(n: int, x: real)
    ensures Times(n, x) == Times(n - 1, x) + x
  {
  }

  method Sum(values: seq<real>) returns (sum: real)
    ensures sum == SumOf(values)
  {
    sum := 0.0;
    for i := 0 to |values|
      invariant sum == SumOf(values[..i])
    {
      assert values[..i + 1][..i] == values[..i];
      sum := sum + values[i];
    }
    assert values[..|values|] == values;
  }

  // ---------------------------------------------------------------------------------------------
  // Split
  // ---------------------------------------------------------------------------------------------

  function BaseAmount(m: real, n: int): real
    requires n > 0
  {
    Floor(m / n as real)
  }

  function Remainder(m: real, n: int): real
    requires n > 0
  {
    m - Times(n, BaseAmount(m, n))
  }

  function Pennies(m: real, n: int): int
    requires n > 0
  {
    IntPart(Remainder(m, n) * 100.0)
  }

  function Shares(m: real, n: int): seq<real>
    requires n > 0
  {
    var base, pennies := BaseAmount(m, n), Pennies(m, n);
    seq(n, i => if i < pennies then base + CENT else base)
  }

  method Split(m: real, n: int) returns (results: array<real>)
    ensures n <= 0 ==> results[..] == []
    ensures n > 0 ==> results[..] == Shares(m, n)
  {
    if n <= 0 {
      results := new real[0];
      return;
    }
    var baseAmount := Floor(m / n as real);
    results := new real[n];
    var distributed := 0.0;
    var i := 0;
    while i < n
      invariant 0 <= i <= n && distributed == Times(i, baseAmount)
      invariant forall j :: 0 <= j < i ==> results[j] == baseAmount
    {
      results[i] := baseAmount;
      distributed := distributed + baseAmount;
      i := i + 1;
      OneMore(i, baseAmount);
    }
    var remainder := m - distributed;
    var pennies := IntPart(remainder * 100.0);
    i := 0;
    while i < pennies && i < n
      invariant 0 <= i <= n && (0 < i ==> i <= pennies)
      invariant forall j :: 0 <= j < i ==> results[j] == baseAmount + CENT
      invariant forall j :: i <= j < n ==> results[j] == baseAmount
    {
      results[i] := results[i] + CENT;
      i := i + 1;
    }
  }

  lemma TimesDistributes(n: int, x: real, y: real)
    ensures Times(n, x - y) == Times(n, x) - Times(n, y)
  {
  }

  lemma TimesQuotient(m: real, n: int)
    requires n > 0
    ensures Times(n, m / n as real) == m
  {
  }

  lemma TimesFraction(n: int, f: real)
    requires n > 0 && 0.0 <= f < 1.0
    ensures 0.0 <= Times(n, f) < n as real
  {
    var d := n as real;
    assert d * f >= 0.0;
    assert d * (1.0 - f) > 0.0;
    assert d * (1.0 - f) == d - d * f;
  }

  /** The remainder is less than one unit per share. */
  lemma RemainderBounds(m: real, n: int)
    requires n > 0
    ensures 0.0 <= Remainder(m, n) < n as real
    ensures 0 <= Pennies(m, n)
    ensures Pennies(m, n) as real <= Remainder(m, n) * 100.0 < Pennies(m, n) as real + 1.0
  {
    var q, b := m / n as real, BaseAmount(m, n);
    TimesQuotient(m, n);
    TimesDistributes(n, q, b);
    TimesFraction(n, q - b);
  }

  lemma {:induction false} TwoLevels(n: nat, k: nat, low: real, high: real)
    ensures SumOf(seq(n, i => if i < k then high else low))
         == Times(n, low) + Times(Least(k, n), high - low)
  {
    var s := seq(n, i => if i < k then high else low);
    if n == 0 {
      assert Times(0, low) == 0.0 && Times(0, high - low) == 0.0;
    } else {
      TwoLevels(n - 1, k, low, high);
      assert s[..n - 1] == seq(n - 1, i => if i < k then high else low);
      OneMore(n, low);
      if n <= k {
        OneMore(n, high - low);
        assert Least(k, n) == n && Least(k, n - 1) == n - 1;
      } else {
        assert Least(k, n) == k && Least(k, n - 1) == k;
      }
    }
  }

  /**
   Every share is the whole-unit quotient or one cent more, larger shares first; together they are the quotients
   plus one cent per share while the remainder lasts.
   */
  lemma SplitShape(m: real, n: int)
    requires n > 0
    ensures var s, base := Shares(m, n), BaseAmount(m, n);
            && |s| == n
            && base == base.Floor as real && base <= m / n as real < base + 1.0
            && (forall i :: 0 <= i < n ==> s[i] == base || s[i] == base + 0.01)
            && (forall i, j :: 0 <= i < j < n ==> s[i] >= s[j])
            && SumOf(s) == n as real * base + 0.01 * Least(Pennies(m, n), n) as real
            && Pennies(m, n) as real <= 100.0 * (m - n as real * base) < Pennies(m, n) as real + 1.0
  {
    RemainderBounds(m, n);
    var base := BaseAmount(m, n);
    TwoLevels(n, Pennies(m, n), base, base + CENT);
    assert Shares(m, n) == seq(n, i => if i < Pennies(m, n) then base + CENT else base);
  }

  /**
   Split never gives out more than the amount, and gives out all of it exactly when what is left after whole
   units is a whole number of cents, no more of them than shares.
   */
  lemma SplitConserves(m: real, n: int)
    requires n > 0
    ensures SumOf(Shares(m, n)) <= m
    ensures SumOf(Shares(m, n)) == m
            <==> var cents := Remainder(m, n) * 100.0; cents == cents.Floor as real && cents <= n as real
  {
    SplitShape(m, n);
    RemainderBounds(m, n);
  }

  /** The README's own example is one of the amounts that Split does not give out: each third of 100.00 is 33.01. */
  lemma HundredByThree()
    ensures Shares(100.0, 3) == [33.01, 33.01, 33.01] && SumOf(Shares(100.0, 3)) == 99.03
  {
    assert (100.0 / 3.0).Floor == 33;
    assert Pennies(100.0, 3) == 100;
    SplitShape(100.0, 3);
  }

  // ---------------------------------------------------------------------------------------------
  // Allocate
  // ---------------------------------------------------------------------------------------------

  function TotalRatio(ratios: seq<int>): int {
    if ratios == [] then 0 else TotalRatio(ratios[..|ratios| - 1]) + ratios[|ratios| - 1]
  }

  /** The exact proportional share. */
  function Share(m: real, ratio: int, total: int): real
    requires total != 0
  {
    m * (ratio as real / total as real)
  }

  function Rounded(m: real, ratios: seq<int>, total: int): seq<real>
    requires total != 0
  {
    seq(|ratios|, i requires 0 <= i < |ratios| => Round2(Share(m, ratios[i], total)))
  }

  ghost predicate FirstLargest(s: seq<real>, k: int) {
    && 0 <= k < |s|
    && (forall i :: 0 <= i < |s| ==> s[i] <= s[k])
    && (forall i :: 0 <= i < k ==> s[i] < s[k])
  }

  /** The rounded parts, the first largest of them moved by the rounding difference if there is one. */
  ghost predicate Adjusted(m: real, rounded: seq<real>, k: int, results: seq<real>) {
    if m == SumOf(rounded) then results == rounded
    else FirstLargest(rounded, k) && results == rounded[k := rounded[k] + (m - SumOf(rounded))]
  }

  method SumRatios(ratios: seq<int>) returns (totalRatio: int)
    ensures totalRatio == TotalRatio(ratios)
  {
    totalRatio := 0;
    for i := 0 to |ratios|
      invariant totalRatio == TotalRatio(ratios[..i])
    {
      assert ratios[..i + 1][..i] == ratios[..i];
      totalRatio := totalRatio + ratios[i];
    }
    assert ratios[..|ratios|] == ratios;
  }

  method RoundShares(m: real, ratios: seq<int>, totalRatio: int) returns (results: array<real>, given: real)
    requires totalRatio != 0
    ensures fresh(results) && results[..] == Rounded(m, ratios, totalRatio)
    ensures given == SumOf(Rounded(m, ratios, totalRatio))
  {
    results := new real[|ratios|];
    ghost var rounded := Rounded(m, ratios, totalRatio);
    given := 0.0;
    var i := 0;
    while i < |ratios|
      invariant 0 <= i <= |ratios| && results[..i] == rounded[..i] && given == SumOf(rounded[..i])
    {
      results[i] := Round2(m * (ratios[i] as real / totalRatio as real));
      given := given + results[i];
      assert rounded[..i + 1][..i] == rounded[..i];
      i := i + 1;
    }
    assert rounded[..i] == rounded && results[..i] == results[..];
  }

  method LargestIndex(results: array<real>) returns (maxIdx: int)
    requires results.Length > 0
    ensures FirstLargest(results[..], maxIdx)
  {
    maxIdx := 0;
    var i := 1;
    while i < results.Length
      invariant 1 <= i <= results.Length && 0 <= maxIdx < i
      invariant forall j :: 0 <= j < i ==> results[j] <= results[maxIdx]
      invariant forall j :: 0 <= j < maxIdx ==> results[j] < results[maxIdx]
    {
      if results[i] > results[maxIdx] {
        maxIdx := i;
      }
      i := i + 1;
    }
  }

  /** `adjusted` is the index of the part that takes the rounding difference. */
  method Allocate(m: real, ratios: seq<int>) returns (results: array<real>, ghost adjusted: int)
    ensures results.Length == |ratios|
    ensures TotalRatio(ratios) == 0 ==> forall i :: 0 <= i < |ratios| ==> results[i] == 0.0
    ensures TotalRatio(ratios) != 0 ==>
              Adjusted(m, Rounded(m, ratios, TotalRatio(ratios)), adjusted, results[..])
  {
    adjusted := 0;
    if |ratios| == 0 {
      results := new real[0];
      return;
    }
    var totalRatio := SumRatios(ratios);
    if totalRatio == 0 {
      results := new real[|ratios|](_ => 0.0);
      return;
    }
    var given;
    results, given := RoundShares(m, ratios, totalRatio);
    var diff := m - given;
    ghost var rounded := results[..];
    if diff != 0.0 {
      var maxIdx := LargestIndex(results);
      adjusted := maxIdx;
      results[maxIdx] := results[maxIdx] + diff;
      assert results[..] == rounded[adjusted := rounded[adjusted] + diff];
    }
  }

  lemma {:induction false} SumUpdate(s: seq<real>, k: nat, x: real)
    requires k < |s|
    ensures SumOf(s[k := s[k] + x]) == SumOf(s) + x
  {
    var n := |s| - 1;
    if k == n {
      assert s[k := s[k] + x][..n] == s[..n];
    } else {
      assert s[k := s[k] + x][..n] == s[..n][k := s[k] + x];
      SumUpdate(s[..n], k, x);
    }
  }

  /** A whole number of cents. */
  predicate WholeCents(x: real) {
    100.0 * x == (100.0 * x).Floor as real
  }

  /** Rounding gives the nearest whole number of cents, of two equally near ones the one farther from zero. */
  lemma RoundError(x: real)
    ensures WholeCents(Round2(x))
    ensures -0.005 <= Round2(x) - x <= 0.005
    ensures x > 0.0 ==> Round2(x) - x != -0.005
    ensures x < 0.0 ==> Round2(x) - x != 0.005
  {
    var n := if x >= 0.0 then (x * 100.0 + 0.5).Floor else -(-x * 100.0 + 0.5).Floor;
    assert 100.0 * Round2(x) == n as real;
  }

  /** And that determines it. */
  lemma RoundIsUnique(x: real, y: real)
    requires WholeCents(y) && -0.005 <= y - x <= 0.005
    requires (x > 0.0 ==> y - x != -0.005) && (x < 0.0 ==> y - x != 0.005)
    ensures y == Round2(x)
  {
    RoundError(x);
    NearestIsUnique((100.0 * y).Floor, (100.0 * Round2(x)).Floor, 100.0 * x);
  }

  lemma NearestIsUnique(m: int, n: int, h: real)
    requires -0.5 <= m as real - h <= 0.5 && -0.5 <= n as real - h <= 0.5
    requires h > 0.0 ==> m as real - h != -0.5 && n as real - h != -0.5
    requires h < 0.0 ==> m as real - h != 0.5 && n as real - h != 0.5
    ensures m == n
  {
    assert -1.0 <= m as real - n as real <= 1.0;
    assert -1 <= m - n <= 1;
  }

  lemma CentsAreWhole(x: real, cents: int)
    requires 100.0 * x == cents as real
    ensures WholeCents(x)
  {
  }

  lemma WholeCentsAdd(x: real, y: real)
    requires WholeCents(x) && WholeCents(y)
    ensures WholeCents(x + y) && WholeCents(x - y)
  {
    var m, n := (100.0 * x).Floor, (100.0 * y).Floor;
    CentsAreWhole(x + y, m + n);
    CentsAreWhole(x - y, m - n);
  }

  lemma {:induction false} SumIsWholeCents(s: seq<real>)
    requires forall i :: 0 <= i < |s| ==> WholeCents(s[i])
    ensures WholeCents(SumOf(s))
  {
    if s != [] {
      SumIsWholeCents(s[..|s| - 1]);
      WholeCentsAdd(SumOf(s[..|s| - 1]), s[|s| - 1]);
    }
  }

  lemma RoundedAreWholeCents(m: real, ratios: seq<int>, total: int)
    requires total != 0
    ensures var r := Rounded(m, ratios, total);
            WholeCents(SumOf(r)) && forall i :: 0 <= i < |r| ==> WholeCents(r[i])
  {
    var r := Rounded(m, ratios, total);
    forall i | 0 <= i < |r| ensures WholeCents(r[i]) {
      RoundError(Share(m, ratios[i], total));
    }
    SumIsWholeCents(r);
  }

  lemma AddShares(m: real, a: int, b: int, total: int)
    requires total != 0
    ensures Share(m, a, total) + Share(m, b, total) == Share(m, a + b, total)
  {
    var t := total as real;
    assert a as real / t + b as real / t == (a + b) as real / t;
    assert m * (a as real / t) + m * (b as real / t) == m * (a as real / t + b as real / t);
  }

  /** The rounded parts of any prefix of the ratios miss their exact share by at most half a cent each. */
  lemma {:induction false} RoundedSum(m: real, ratios: seq<int>, total: int)
    requires total != 0
    ensures var miss := Share(m, TotalRatio(ratios), total) - SumOf(Rounded(m, ratios, total));
            -0.005 * |ratios| as real <= miss <= 0.005 * |ratios| as real
  {
    if ratios == [] {
      assert Share(m, 0, total) == 0.0;
    } else {
      var n := |ratios| - 1;
      var before := ratios[..n];
      RoundedSum(m, before, total);
      assert Rounded(m, ratios, total)[..n] == Rounded(m, before, total);
      AddShares(m, TotalRatio(before), ratios[n], total);
      RoundError(Share(m, ratios[n], total));
    }
  }

  lemma RoundedWithin(m: real, ratios: seq<int>, total: int, i: int)
    requires total != 0 && 0 <= i < |ratios|
    ensures -0.005 <= Rounded(m, ratios, total)[i] - Share(m, ratios[i], total) <= 0.005
  {
    RoundError(Share(m, ratios[i], total));
  }

  lemma WholeShare(m: real, total: int)
    requires total != 0
    ensures Share(m, total, total) == m
  {
    assert total as real / total as real == 1.0;
  }

  /** What the rounded parts miss is at most half a cent per part. */
  lemma DifferenceIsSmall(m: real, ratios: seq<int>)
    requires TotalRatio(ratios) != 0
    ensures -0.005 * |ratios| as real <= m - SumOf(Rounded(m, ratios, TotalRatio(ratios))) <= 0.005 * |ratios| as real
  {
    RoundedSum(m, ratios, TotalRatio(ratios));
    WholeShare(m, TotalRatio(ratios));
  }

  /** One part at most is moved, by what the parts miss. */
  lemma AdjustedParts(m: real, rounded: seq<real>, k: int, results: seq<real>)
    requires Adjusted(m, rounded, k, results)
    ensures SumOf(results) == m && |results| == |rounded|
    ensures forall i :: 0 <= i < |rounded| ==>
              results[i] == rounded[i] || (i == k && results[i] - rounded[i] == m - SumOf(rounded))
  {
    if m != SumOf(rounded) {
      SumUpdate(rounded, k, m - SumOf(rounded));
    }
  }

  lemma AdjustedInCents(m: real, ratios: seq<int>, k: int, results: seq<real>)
    requires TotalRatio(ratios) != 0
    requires Adjusted(m, Rounded(m, ratios, TotalRatio(ratios)), k, results)
    ensures |results| == |ratios|
    ensures forall i :: 0 <= i < |ratios| && i != k ==> WholeCents(results[i])
    ensures WholeCents(m) ==> forall i :: 0 <= i < |ratios| ==> WholeCents(results[i])
  {
    var rounded := Rounded(m, ratios, TotalRatio(ratios));
    AdjustedParts(m, rounded, k, results);
    RoundedAreWholeCents(m, ratios, TotalRatio(ratios));
    if WholeCents(m) && m != SumOf(rounded) {
      WholeCentsAdd(m, SumOf(rounded));
      WholeCentsAdd(rounded[k], m - SumOf(rounded));
    }
  }

  /**
   What Allocate hands out: the parts sum to exactly `m`; each but the first largest is its proportional share to the
   nearest cent; the largest is moved by at most half a cent per part; and if `m` is in whole cents all parts are.
   */
  lemma AllocateConserves(m: real, ratios: seq<int>, k: int, results: seq<real>)
    requires TotalRatio(ratios) != 0
    requires Adjusted(m, Rounded(m, ratios, TotalRatio(ratios)), k, results)
    ensures SumOf(results) == m
    ensures |results| == |ratios|
    ensures forall i :: 0 <= i < |ratios| && i != k ==>
              && WholeCents(results[i])
              && -0.005 <= results[i] - Share(m, ratios[i], TotalRatio(ratios)) <= 0.005
    ensures WholeCents(m) ==> forall i :: 0 <= i < |ratios| ==> WholeCents(results[i])
    ensures forall i :: 0 <= i < |ratios| ==>
              var change := results[i] - Rounded(m, ratios, TotalRatio(ratios))[i];
              -0.005 * |ratios| as real <= change <= 0.005 * |ratios| as real
  {
    var total := TotalRatio(ratios);
    AdjustedParts(m, Rounded(m, ratios, total), k, results);
    AdjustedInCents(m, ratios, k, results);
    DifferenceIsSmall(m, ratios);
    forall i | 0 <= i < |ratios| && i != k
      ensures -0.005 <= results[i] - Share(m, ratios[i], total) <= 0.005
    {
      RoundedWithin(m, ratios, total, i);
    }
  }
}
