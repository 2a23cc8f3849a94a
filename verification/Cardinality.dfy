/** Series budgets in 64-bit arithmetic: generator/naming/cardinality.go and
    `checkCombinedMetricsBudget` of generator/planner/planner.go. */
module Cardinality {
  import opened Wrappers

  const MaxInt64 := 0x7fff_ffff_ffff_ffff

  // Go's int and int64.
  type Int64 = x: int | -0x8000_0000_0000_0000 <= x <= 0x7fff_ffff_ffff_ffff

  // Addition that wraps around.
  function Wrap(x: int): (r: Int64)
    ensures -0x8000_0000_0000_0000 <= x <= MaxInt64 ==> r == x
  {
    (x + 0x8000_0000_0000_0000) % 0x1_0000_0000_0000_0000 - 0x8000_0000_0000_0000
  }

  // Go's division rounds toward zero.
  function Quotient(a: int, b: int): int
    requires b != 0
  {
    if (a >= 0) == (b > 0) then Abs(a) / Abs(b) else -(Abs(a) / Abs(b))
  }

  function Abs(x: int): nat { if x < 0 then -x else x }

  // ---- What the estimate should be ----

  function Product(xs: seq<int>): int
  {
    if xs == [] then 1 else Product(xs[..|xs| - 1]) * xs[|xs| - 1]
  }

  // Series per attribute combination: buckets, +Inf, sum and count, or quantiles, sum and count.
  function PerCombination(metricType: string, buckets: int, quantiles: int): Option<int>
  {
    if metricType == "counter" || metricType == "gauge" then Some(1)
    else if metricType == "histogram" then if buckets < 1 then None else Some(buckets + 3)
    else if metricType == "summary" then if quantiles < 1 then None else Some(quantiles + 2)
    else None
  }

  // The number of series, or nothing for input that has none.
  function Series(metricType: string, cardinalities: seq<int>, buckets: int, quantiles: int): Option<int>
  {
    if exists c <- cardinalities :: c < 1 then None
    else
      match PerCombination(metricType, buckets, quantiles)
      case None => None
      case Some(n) => Some(Product(cardinalities) * n)
  }

  // ---- Arithmetic the guards rely on ----

  lemma {:induction false} GuardIsExact(a: int, b: int)
    requires a >= 1 && b >= 1
    ensures a > MaxInt64 / b <==> a * b > MaxInt64
  {
    if a > MaxInt64 / b {
      DivisionBelow(MaxInt64, b);
      ProductGrows(MaxInt64 / b + 1, a, b);
    } else {
      DivisionAbove(MaxInt64, b);
      ProductGrows(a, MaxInt64 / b, b);
    }
  }

  lemma {:induction false} DivisionBelow(m: int, b: int)
    requires b >= 1
    ensures (m / b + 1) * b > m
  {
  }

  lemma {:induction false} DivisionAbove(m: int, b: int)
    requires b >= 1
    ensures m / b * b <= m
  {
  }

  lemma {:induction false} ProductGrows(a: int, c: int, b: int)
    requires a <= c && b >= 1
    ensures a * b <= c * b
  {
  }

  lemma {:induction false} ProductPositive(xs: seq<int>, k: nat)
    requires k <= |xs| && forall x <- xs :: x >= 1
    ensures 1 <= Product(xs[..k]) <= Product(xs)
    decreases |xs| - k
  {
    if k == |xs| {
      assert xs[..k] == xs;
      ProductAtLeastOne(xs);
    } else {
      ProductPositive(xs, k + 1);
      assert xs[..k + 1][..k] == xs[..k];
      forall x | x in xs[..k] ensures x >= 1 { assert x in xs; }
      ProductAtLeastOne(xs[..k]);
      assert xs[k] in xs;
      ProductGrowsRight(Product(xs[..k]), xs[k]);
    }
  }

  lemma {:induction false} ProductGrowsRight(a: int, b: int)
    requires a >= 1 && b >= 1
    ensures a <= a * b
  {
  }

  lemma {:induction false} ProductAtLeastOne(xs: seq<int>)
    requires forall x <- xs :: x >= 1
    ensures Product(xs) >= 1
  {
    if xs != [] {
      var rest := xs[..|xs| - 1];
      assert forall x <- rest :: x in xs;
      assert xs[|xs| - 1] in xs;
      ProductAtLeastOne(rest);
      ProductGrowsRight(Product(rest), xs[|xs| - 1]);
    }
  }

  lemma {:induction false} TimesPositive(p: int, q: int, n: int)
    requires 1 <= p <= q && n >= 1
    ensures p <= q * n
  {
    ProductGrowsRight(q, n);
  }

  // ---- EstimateSeries ----

  // The estimate is the exact number of series when that fits 64 bits, and an error otherwise:
  // the guards neither miss an overflow nor refuse a number that fits.
  method EstimateSeries(metricType: string, cardinalities: seq<Int64>, buckets: Int64, quantiles: Int64)
    returns (r: Result<Int64>)
    ensures var exact := Series(metricType, cardinalities, buckets, quantiles);
            && (r.Ok? <==> exact.Some? && exact.value <= MaxInt64)
            && (r.Ok? ==> r.value == exact.value)
  {
    var combinations: Int64 := 1;
    for i := 0 to |cardinalities|
      invariant forall j :: 0 <= j < i ==> cardinalities[j] >= 1
      invariant combinations == Product(cardinalities[..i]) && combinations >= 1
    {
      var cardinality := cardinalities[i];
      if cardinality < 1 {
        assert cardinality in cardinalities;
        return Err;
      }
      assert cardinalities[..i + 1][..i] == cardinalities[..i];
      GuardIsExact(cardinality, combinations);
      ProductGrowsRight(combinations, cardinality);
      if cardinality > MaxInt64 / combinations {
        PrefixTooLarge(metricType, cardinalities, buckets, quantiles, i);
        return Err;
      }
      combinations := combinations * cardinality;
    }
    assert cardinalities[..|cardinalities|] == cardinalities;
    if metricType == "counter" || metricType == "gauge" { return Ok(combinations); }
    if metricType == "histogram" {
      if buckets < 1 { return Err; }
      r := Scale(combinations, buckets, 3);
      return;
    }
    if metricType == "summary" {
      if quantiles < 1 { return Err; }
      r := Scale(combinations, quantiles, 2);
      return;
    }
    return Err;
  }

  lemma {:induction false} PrefixTooLarge(
    metricType: string, cardinalities: seq<Int64>, buckets: Int64, quantiles: Int64, i: nat)
    requires i < |cardinalities| && (forall j :: 0 <= j <= i ==> cardinalities[j] >= 1)
    requires Product(cardinalities[..i + 1]) > MaxInt64
    ensures var exact := Series(metricType, cardinalities, buckets, quantiles); exact.None? || exact.value > MaxInt64
  {
    var exact := Series(metricType, cardinalities, buckets, quantiles);
    if exact.Some? {
      ProductPositive(cardinalities, i + 1);
      var n := PerCombination(metricType, buckets, quantiles).value;
      TimesPositive(Product(cardinalities[..i + 1]), Product(cardinalities), n);
    }
  }

  // combinations * (count + extra), where the sum itself may wrap.
  method Scale(combinations: Int64, count: Int64, extra: Int64) returns (r: Result<Int64>)
    requires combinations >= 1 && count >= 1 && 0 <= extra <= 3
    ensures r.Ok? <==> combinations * (count + extra) <= MaxInt64
    ensures r.Ok? ==> r.value == combinations * (count + extra)
  {
    var factor := Wrap(count + extra);
    ProductGrowsRight(combinations, count + extra);
    if count + extra > MaxInt64 {
      ProductGrows(1, combinations, count + extra);
      assert factor == count + extra - 0x1_0000_0000_0000_0000;
    } else {
      GuardIsExact(combinations, count + extra);
      ProductGrowsRight(count + extra, combinations);
    }
    if combinations > Quotient(MaxInt64, factor) { return Err; }
    return Ok(combinations * factor);
  }

  // ---- The combined budget ----

  datatype Metric = Metric(typ: string, attributes: seq<string>)

  function Domains(m: Metric): seq<Int64>
  {
    if m.typ != "gauge" && "status" in m.attributes then [1, 1, 5] else [1, 1]
  }

  function MetricSeries(m: Metric, buckets: int, quantiles: int): Option<int>
  {
    Series(m.typ, Domains(m), buckets, quantiles)
  }

  // Every metric has an estimate that fits.
  ghost predicate Estimable(metrics: seq<Metric>, buckets: int, quantiles: int)
  {
    forall m <- metrics :: MetricSeries(m, buckets, quantiles).Some?
        && MetricSeries(m, buckets, quantiles).value <= MaxInt64
  }

  function TotalSeries(metrics: seq<Metric>, buckets: int, quantiles: int): int
  {
    if metrics == [] then 0
    else
      TotalSeries(metrics[..|metrics| - 1], buckets, quantiles)
      + match MetricSeries(metrics[|metrics| - 1], buckets, quantiles) case Some(n) => n case None => 0
  }

  lemma {:induction false} WrapAdds(x: int, y: int)
    ensures Wrap(Wrap(x) + y) == Wrap(x + y)
  {
    var m := 0x1_0000_0000_0000_0000;
    var k := (x + 0x8000_0000_0000_0000) / m;
    assert Wrap(x) == x - k * m;
    assert (x + y + 0x8000_0000_0000_0000 - k * m) % m == (x + y + 0x8000_0000_0000_0000) % m by {
      Shift(x + y + 0x8000_0000_0000_0000, k, m);
    }
  }

  lemma {:induction false} Shift(a: int, k: int, m: int)
    requires m == 0x1_0000_0000_0000_0000
    ensures (a - k * m) % m == a % m
  {
  }

  method CheckCombinedMetricsBudget(
    metrics: seq<Metric>, buckets: Int64, quantiles: Int64, maxInstruments: Int64, maxSeries: Int64)
    returns (ok: bool)
    ensures ok <==> Estimable(metrics, buckets, quantiles) && |metrics| <= maxInstruments
                    && Wrap(TotalSeries(metrics, buckets, quantiles)) <= maxSeries
  {
    hide Wrap, MetricSeries;
    var series: Int64 := 0;
    WrapZero();
    for i := 0 to |metrics|
      invariant Estimable(metrics[..i], buckets, quantiles)
      invariant series == Wrap(TotalSeries(metrics[..i], buckets, quantiles))
    {
      var domains: seq<Int64> := [1, 1];
      if metrics[i].typ != "gauge" {
        var status := HasAttribute(metrics[i], "status");
        if status { domains := domains + [5]; }
      }
      assert domains == Domains(metrics[i]);
      var estimated := EstimateSeries(metrics[i].typ, domains, buckets, quantiles);
      MetricSeriesIs(metrics[i], buckets, quantiles);
      if estimated.Err? {
        assert metrics[i] in metrics;
        return false;
      }
      assert metrics[..i + 1] == metrics[..i] + [metrics[i]] && metrics[..i + 1][..i] == metrics[..i];
      WrapAdds(TotalSeries(metrics[..i], buckets, quantiles), estimated.value);
      series := Wrap(series + estimated.value);
    }
    assert metrics[..|metrics|] == metrics;
    return |metrics| <= maxInstruments && series <= maxSeries;
  }

  lemma {:induction false} WrapZero()
    ensures Wrap(0) == 0
  {
  }

  lemma {:induction false} MetricSeriesIs(m: Metric, buckets: int, quantiles: int)
    ensures MetricSeries(m, buckets, quantiles) == Series(m.typ, Domains(m), buckets, quantiles)
  {
  }

  method HasAttribute(m: Metric, key: string) returns (found: bool)
    ensures found == (key in m.attributes)
  {
    for i := 0 to |m.attributes|
      invariant key !in m.attributes[..i]
    {
      if m.attributes[i] == key { return true; }
    }
    return false;
  }

  // ---- The limits of the policy keep the unguarded sum exact ----

  // generator/policy/defaults.go.
  const MaxHistogramBuckets := 50
  const MaxQuantiles := 10
  const HardMaxInstruments := 1_000_000

  // Five statuses of a histogram with all its buckets, +Inf, sum and count.
  const MaxMetricSeries := 5 * (MaxHistogramBuckets + 3)

  // What validateBuckets and validateQuantiles let through. The policy looks at the quantiles only
  // when summaries are enabled, and only then is a summary planned.
  predicate WithinPolicy(metrics: seq<Metric>, buckets: int, quantiles: int)
  {
    && 1 <= buckets <= MaxHistogramBuckets
    && forall m <- metrics :: m.typ == "summary" ==> 1 <= quantiles <= MaxQuantiles
  }

  predicate KnownType(typ: string) { typ == "counter" || typ == "gauge" || typ == "histogram" || typ == "summary" }

  lemma {:induction false} DomainProduct(m: Metric)
    ensures Product(Domains(m)) == if m.typ != "gauge" && "status" in m.attributes then 5 else 1
    ensures forall x <- Domains(m) :: x >= 1
  {
    var two: seq<int> := [1, 1];
    assert two[..1] == [1] && two[..1][..0] == [];
    assert Product(two) == 1;
    var three: seq<int> := [1, 1, 5];
    assert three[..2] == two;
  }

  // Within the policy a metric has an estimate exactly when its type is known, and a small one.
  lemma {:induction false} MetricSeriesBounded(m: Metric, buckets: int, quantiles: int)
    requires WithinPolicy([m], buckets, quantiles)
    ensures MetricSeries(m, buckets, quantiles).Some? <==> KnownType(m.typ)
    ensures KnownType(m.typ) ==> 1 <= MetricSeries(m, buckets, quantiles).value <= MaxMetricSeries
  {
    assert m in [m];
    DomainProduct(m);
  }

  lemma {:induction false} TotalBounded(metrics: seq<Metric>, buckets: int, quantiles: int)
    requires WithinPolicy(metrics, buckets, quantiles)
    ensures 0 <= TotalSeries(metrics, buckets, quantiles) <= MaxMetricSeries * |metrics|
  {
    hide MetricSeries, KnownType;
    if metrics != [] {
      var rest, last := metrics[..|metrics| - 1], metrics[|metrics| - 1];
      assert last in metrics && forall m <- rest :: m in metrics;
      TotalBounded(rest, buckets, quantiles);
      MetricSeriesBounded(last, buckets, quantiles);
      assert MaxMetricSeries * |metrics| == MaxMetricSeries * |rest| + MaxMetricSeries;
    }
  }

  // The budget the documentation means: every type known, few enough instruments, and the true
  // number of series within the limit.
  predicate IntendedBudget(metrics: seq<Metric>, buckets: int, quantiles: int, maxInstruments: int, maxSeries: int)
  {
    && (forall m <- metrics :: KnownType(m.typ))
    && |metrics| <= maxInstruments && TotalSeries(metrics, buckets, quantiles) <= maxSeries
  }

  // Although the sum of estimates is not guarded, the check is the intended budget for every list
  // of metrics under every policy that passes validation: a list long enough to make the sum wrap
  // has too many instruments.
  lemma {:induction false} BudgetIsIntended(
    metrics: seq<Metric>, buckets: Int64, quantiles: Int64, maxInstruments: Int64, maxSeries: Int64)
    requires WithinPolicy(metrics, buckets, quantiles) && maxInstruments <= HardMaxInstruments
    ensures |metrics| <= maxInstruments ==>
              Wrap(TotalSeries(metrics, buckets, quantiles)) == TotalSeries(metrics, buckets, quantiles)
    ensures (Estimable(metrics, buckets, quantiles) && |metrics| <= maxInstruments
             && Wrap(TotalSeries(metrics, buckets, quantiles)) <= maxSeries)
            <==> IntendedBudget(metrics, buckets, quantiles, maxInstruments, maxSeries)
  {
    hide MetricSeries, KnownType, Wrap;
    TotalBounded(metrics, buckets, quantiles);
    if |metrics| <= maxInstruments { WrapFits(TotalSeries(metrics, buckets, quantiles)); }
    forall m | m in metrics
      ensures MetricSeries(m, buckets, quantiles).Some? && MetricSeries(m, buckets, quantiles).value <= MaxInt64
              <==> KnownType(m.typ)
    {
      MetricSeriesBounded(m, buckets, quantiles);
    }
  }

  lemma {:induction false} WrapFits(x: int)
    requires 0 <= x <= MaxInt64
    ensures Wrap(x) == x
  {
  }
}
