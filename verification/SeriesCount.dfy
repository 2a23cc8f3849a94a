/** The series a metric exposes, one by one, and that the estimate of
    generator/naming/cardinality.go is their number. */
module SeriesCount {
  import opened Ordering
  import opened Cardinality

  // ---- The series ----

  // What one combination of attribute values exposes: a value; the finite buckets, the bucket
  // +Inf, a sum and a count; or the quantiles, a sum and a count.
  datatype Exposed = Value | Bucket(i: nat) | InfinityBucket | QuantileOf(i: nat) | SumOf | CountOf

  // The attribute values, and what is exposed for them.
  type TimeSeries = (seq<nat>, Exposed)

  predicate Exposes(metricType: string, buckets: int, quantiles: int, x: Exposed)
  {
    match x
    case Value => metricType == "counter" || metricType == "gauge"
    case Bucket(i) => metricType == "histogram" && i < buckets
    case InfinityBucket => metricType == "histogram"
    case QuantileOf(i) => metricType == "summary" && i < quantiles
    case SumOf => metricType == "histogram" || metricType == "summary"
    case CountOf => metricType == "histogram" || metricType == "summary"
  }

  // Each attribute has one of its values.
  predicate Combines(cardinalities: seq<int>, values: seq<nat>)
  {
    |values| == |cardinalities| && forall i :: 0 <= i < |values| ==> values[i] < cardinalities[i]
  }

  ghost predicate Produces(metricType: string, cardinalities: seq<int>, buckets: int, quantiles: int, s: TimeSeries)
  {
    Combines(cardinalities, s.0) && Exposes(metricType, buckets, quantiles, s.1)
  }

  // ---- Lists of combinations ----

  function Row<A, B>(xs: seq<A>, y: B): (r: seq<(A, B)>)
    ensures |r| == |xs| && forall i :: 0 <= i < |xs| ==> r[i] == (xs[i], y)
  {
    seq(|xs|, i requires 0 <= i < |xs| => (xs[i], y))
  }

  // Every member of the one list with every member of the other.
  function Cross<A, B>(xs: seq<A>, ys: seq<B>): seq<(A, B)>
  {
    if ys == [] then [] else Cross(xs, ys[..|ys| - 1]) + Row(xs, ys[|ys| - 1])
  }

  lemma {:induction false} CrossIs<A(!new), B(!new)>(xs: seq<A>, ys: seq<B>)
    requires NoDup(xs) && NoDup(ys)
    ensures |Cross(xs, ys)| == |xs| * |ys| && NoDup(Cross(xs, ys))
    ensures forall z :: z in Cross(xs, ys) <==> z.0 in xs && z.1 in ys
  {
    hide NoDup;
    NoDupMeans(ys);
    if ys == [] {
      NoDupMeans(Cross(xs, ys));
    } else {
      var rest, last := ys[..|ys| - 1], ys[|ys| - 1];
      NoDupMeans(rest);
      CrossIs(xs, rest);
      RowIs(xs, last);
      assert ys == rest + [last] && last !in rest;
      BothNoDup(Cross(xs, rest), Row(xs, last));
      OneMore(|xs|, |rest|);
    }
  }

  lemma {:induction false} OneMore(a: nat, b: nat)
    ensures a * (b + 1) == a * b + a
  {
  }

  lemma {:induction false} RowIs<A(!new), B(!new)>(xs: seq<A>, y: B)
    requires NoDup(xs)
    ensures NoDup(Row(xs, y)) && forall z :: z in Row(xs, y) <==> z.0 in xs && z.1 == y
  {
    hide NoDup;
    NoDupMeans(xs);
    NoDupMeans(Row(xs, y));
    forall z: (A, B) | z.0 in xs && z.1 == y ensures z in Row(xs, y) {
      var i :| 0 <= i < |xs| && xs[i] == z.0;
      assert Row(xs, y)[i] == z;
    }
  }

  lemma {:induction false} BothNoDup<T(!new)>(xs: seq<T>, ys: seq<T>)
    requires NoDup(xs) && NoDup(ys) && forall z <- xs :: z !in ys
    ensures NoDup(xs + ys)
  {
    forall z ensures multiset(xs + ys)[z] <= 1 {
      assert z in xs <==> z in multiset(xs);
      assert z in ys <==> z in multiset(ys);
    }
  }

  function Upto(n: int): (r: seq<nat>)
    ensures |r| == (if n <= 0 then 0 else n) && forall i :: 0 <= i < |r| ==> r[i] == i
  {
    seq(if n <= 0 then 0 else n, i => i)
  }

  lemma {:induction false} UptoIs(n: int)
    ensures NoDup(Upto(n)) && forall i: nat :: i in Upto(n) <==> i < n
  {
    hide NoDup;
    NoDupMeans(Upto(n));
    forall i: nat | i < n ensures i in Upto(n) { assert Upto(n)[i] == i; }
  }

  // ---- All the series ----

  function Extended(pairs: seq<(seq<nat>, nat)>): (r: seq<seq<nat>>)
    ensures |r| == |pairs| && forall i :: 0 <= i < |pairs| ==> r[i] == pairs[i].0 + [pairs[i].1]
  {
    seq(|pairs|, i requires 0 <= i < |pairs| => pairs[i].0 + [pairs[i].1])
  }

  function Split(values: seq<nat>): (seq<nat>, nat)
    requires values != []
  {
    (values[..|values| - 1], values[|values| - 1])
  }

  lemma {:induction false} ExtendedAre(pairs: seq<(seq<nat>, nat)>)
    requires NoDup(pairs)
    ensures NoDup(Extended(pairs))
    ensures forall values :: values in Extended(pairs) <==> values != [] && Split(values) in pairs
  {
    hide NoDup;
    NoDupMeans(pairs);
    NoDupMeans(Extended(pairs));
    forall i | 0 <= i < |pairs| ensures Extended(pairs)[i] != [] && Split(Extended(pairs)[i]) == pairs[i] {}
    forall values | values != [] && Split(values) in pairs ensures values in Extended(pairs) {
      var i :| 0 <= i < |pairs| && pairs[i] == Split(values);
      assert Extended(pairs)[i] == values;
    }
  }

  function Combinations(cardinalities: seq<int>): seq<seq<nat>>
  {
    if cardinalities == [] then [[]]
    else
      Extended(Cross(Combinations(cardinalities[..|cardinalities| - 1]), Upto(cardinalities[|cardinalities| - 1])))
  }

  lemma {:induction false} CombinationsAre(cardinalities: seq<int>)
    requires forall c <- cardinalities :: c >= 1
    ensures NoDup(Combinations(cardinalities)) && |Combinations(cardinalities)| == Product(cardinalities)
    ensures forall values :: values in Combinations(cardinalities) <==> Combines(cardinalities, values)
  {
    hide NoDup, Cross, Upto, Extended, Combines;
    if cardinalities == [] {
      NoDupMeans(Combinations(cardinalities));
      assert forall values :: Combines([], values) <==> values == [] by { NothingCombines(); }
    } else {
      var n := |cardinalities| - 1;
      var rest, last := cardinalities[..n], cardinalities[n];
      assert last in cardinalities && forall c <- rest :: c in cardinalities;
      CombinationsAre(rest);
      UptoIs(last);
      CrossIs(Combinations(rest), Upto(last));
      ExtendedAre(Cross(Combinations(rest), Upto(last)));
      forall values ensures Combines(cardinalities, values) <==>
                              values != [] && Combines(rest, Split(values).0) && Split(values).1 < last
      {
        CombinesMore(cardinalities, values);
      }
    }
  }

  lemma {:induction false} NothingCombines()
    ensures forall values :: Combines([], values) <==> values == []
  {
  }

  lemma {:induction false} CombinesMore(cardinalities: seq<int>, values: seq<nat>)
    requires cardinalities != []
    ensures var n := |cardinalities| - 1;
            Combines(cardinalities, values) <==>
              values != [] && Combines(cardinalities[..n], Split(values).0) && Split(values).1 < cardinalities[n]
  {
  }

  function Buckets(n: int): (r: seq<Exposed>)
    ensures |r| == (if n <= 0 then 0 else n) && forall i :: 0 <= i < |r| ==> r[i] == Bucket(i)
  {
    seq(if n <= 0 then 0 else n, i requires i >= 0 => Bucket(i))
  }

  function Quantiles(n: int): (r: seq<Exposed>)
    ensures |r| == (if n <= 0 then 0 else n) && forall i :: 0 <= i < |r| ==> r[i] == QuantileOf(i)
  {
    seq(if n <= 0 then 0 else n, i requires i >= 0 => QuantileOf(i))
  }

  lemma {:induction false} BucketsAre(n: int)
    ensures NoDup(Buckets(n)) && forall x :: x in Buckets(n) <==> x.Bucket? && x.i < n
  {
    hide NoDup;
    NoDupMeans(Buckets(n));
    forall x: Exposed | x.Bucket? && x.i < n ensures x in Buckets(n) { assert Buckets(n)[x.i] == x; }
  }

  lemma {:induction false} QuantilesAre(n: int)
    ensures NoDup(Quantiles(n)) && forall x :: x in Quantiles(n) <==> x.QuantileOf? && x.i < n
  {
    hide NoDup;
    NoDupMeans(Quantiles(n));
    forall x: Exposed | x.QuantileOf? && x.i < n ensures x in Quantiles(n) { assert Quantiles(n)[x.i] == x; }
  }

  function ExposedBy(metricType: string, buckets: int, quantiles: int): seq<Exposed>
  {
    if metricType == "counter" || metricType == "gauge" then [Value]
    else if metricType == "histogram" then Buckets(buckets) + [InfinityBucket, SumOf, CountOf]
    else if metricType == "summary" then Quantiles(quantiles) + [SumOf, CountOf]
    else []
  }

  lemma {:induction false} ExposedAre(metricType: string, buckets: int, quantiles: int)
    requires PerCombination(metricType, buckets, quantiles).Some?
    ensures var xs := ExposedBy(metricType, buckets, quantiles);
            && NoDup(xs) && |xs| == PerCombination(metricType, buckets, quantiles).value
            && forall x :: x in xs <==> Exposes(metricType, buckets, quantiles, x)
  {
    hide Buckets, Quantiles, NoDup;
    if metricType == "histogram" {
      BucketsAre(buckets);
      ClosingNoDup();
      BothNoDup(Buckets(buckets), [InfinityBucket, SumOf, CountOf]);
    } else if metricType == "summary" {
      QuantilesAre(quantiles);
      ClosingNoDup();
      BothNoDup(Quantiles(quantiles), [SumOf, CountOf]);
    } else {
      NoDupMeans([Value]);
    }
  }

  lemma {:induction false} ClosingNoDup()
    ensures NoDup([InfinityBucket, SumOf, CountOf]) && NoDup([SumOf, CountOf])
  {
    hide NoDup;
    NoDupMeans([InfinityBucket, SumOf, CountOf]);
    NoDupMeans([SumOf, CountOf]);
  }

  function AllSeries(metricType: string, cardinalities: seq<int>, buckets: int, quantiles: int): seq<TimeSeries>
  {
    Cross(Combinations(cardinalities), ExposedBy(metricType, buckets, quantiles))
  }

  // Where there is an estimate, it is the number of series the metric exposes, each listed once.
  lemma {:induction false} EstimateCountsSeries(
    metricType: string, cardinalities: seq<int>, buckets: int, quantiles: int)
    requires Series(metricType, cardinalities, buckets, quantiles).Some?
    ensures var all := AllSeries(metricType, cardinalities, buckets, quantiles);
            && NoDup(all) && |all| == Series(metricType, cardinalities, buckets, quantiles).value
            && forall s :: s in all <==> Produces(metricType, cardinalities, buckets, quantiles, s)
  {
    hide Cross, NoDup, Combinations, ExposedBy, Exposes, Combines, PerCombination;
    CombinationsAre(cardinalities);
    ExposedAre(metricType, buckets, quantiles);
    CrossIs( Combinations(cardinalities), ExposedBy(metricType, buckets, quantiles));
  }

  // There is an estimate exactly for known types, attributes with at least one value each, and a
  // histogram with a bucket or a summary with a quantile.
  lemma {:induction false} EstimateExactlyWhen(
    metricType: string, cardinalities: seq<int>, buckets: int, quantiles: int)
    ensures Series(metricType, cardinalities, buckets, quantiles).Some? <==>
              && (forall c <- cardinalities :: c >= 1) && KnownType(metricType)
              && (metricType == "histogram" ==> buckets >= 1) && (metricType == "summary" ==> quantiles >= 1)
  {
  }
}
