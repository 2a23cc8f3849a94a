/** What the planned queries select, in terms of the series of a store. */
module PlannedMeaning {
  import opened Ordering
  import opened QueryTypes
  import opened QueryNames
  import opened SelectorDomain
  import opened Catalog
  import opened QueryRatio
  import opened QueryPlanner
  import opened QueryPlannerSafety
  import opened Families
  import opened FamilyQueries

  // The series of a metric that belong to the service and, when the metric tells operations
  // apart, to the operation. A label that is not declared, or a value that is not controlled,
  // does not restrict.
  predicate InScope(r: SignalReference, service: string, operation: string, series: Series)
  {
    && series.metric == r.name
    && ("service" in r.attributes && service != "" ==> Label(series, "service") == service)
    && ("operation" in r.attributes && ValidOperationValue(operation) ==> Label(series, "operation") == operation)
  }

  predicate Failed(regex: (string, string) -> bool, series: Series)
  {
    regex(ErrorStatusPattern, Label(series, "status"))
  }

  predicate BelowInfinity(series: Series) { Label(series, "le") != BucketBoundary }

  // ---- Selectors ----

  lemma {:induction false} SortedSelects(
    regex: (string, string) -> bool, name: string, leq: (LabelMatcher, LabelMatcher) -> bool, ms: seq<LabelMatcher>,
    series: Series)
    ensures Selects(regex, Selector(name, SortBy(leq, ms)), series) <==>
              series.metric == name && forall m <- ms :: Passes(regex, m, series)
  {
    hide Passes, SortBy;
    SameMembers(leq, ms);
  }

  lemma {:induction false} BaseSelects(
    regex: (string, string) -> bool, r: SignalReference, service: string, operation: string, series: Series)
    ensures && series.metric == r.name
            && (forall m <- BaseMatchersOf(r, service, operation) :: Passes(regex, m, series)) <==>
              InScope(r, service, operation, series)
  {
    hide ValidOperationValue, Label;
    var base := BaseMatchersOf(r, service, operation);
    assert "service" in r.attributes && service != "" ==> ServiceMatcher(service) in base;
    assert "operation" in r.attributes && operation != "" && ValidOperationValue(operation) ==>
        OperationMatcher(operation) in base;
    ValidIsNotEmpty(operation);
  }

  lemma {:induction false} ValidIsNotEmpty(operation: string)
    ensures ValidOperationValue(operation) ==> operation != ""
  {
  }

  // With one matcher more.
  lemma {:induction false} ExtraSelects(
    regex: (string, string) -> bool, r: SignalReference, service: string, operation: string, extra: LabelMatcher,
    series: Series)
    ensures Selects(regex, SelectorWith(r.name, BaseMatchersOf(r, service, operation) + [extra]), series) <==>
              InScope(r, service, operation, series) && Passes(regex, extra, series)
  {
    hide Passes, SortBy, BaseMatchersOf, InScope;
    var base := BaseMatchersOf(r, service, operation);
    SortedSelects(regex, r.name, LabelLeq, base + [extra], series);
    BaseSelects(regex, r, service, operation, series);
    var all := base + [extra];
    assert all[|base|] == extra;
    assert forall m :: m in all <==> m in base || m == extra;
  }

  lemma {:induction false} PlainSelects(
    regex: (string, string) -> bool, r: SignalReference, service: string, operation: string, series: Series)
    ensures Selects(regex, SelectorWith(r.name, BaseMatchersOf(r, service, operation)), series) <==>
        InScope(r, service, operation, series)
    ensures Selects(regex, Selector(r.name, BaseMatchersOf(r, service, operation)), series) <==>
        InScope(r, service, operation, series)
  {
    hide Passes, SortBy, BaseMatchersOf, InScope;
    SortedSelects(regex, r.name, LabelLeq, BaseMatchersOf(r, service, operation), series);
    BaseSelects(regex, r, service, operation, series);
  }

  // ---- The item's queries ----

  // Each query reads exactly the series it is about: the metric's series in scope, the failed
  // ones in a ratio's numerator, the finite buckets under a percentile.
  lemma {:induction false} PlansSelectExactly(
    item: Item, service: string, interval: string, r: SignalReference, q: real, regex: (string, string) -> bool,
    series: Series)
    ensures var scope := InScope(r, service, item.operation, series);
            var ratio := ErrorRatioPlan(item, service, interval, r).expr;
            && (Selects(regex, RatePlan(item, service, interval, r).expr.expr.selector, series) <==> scope)
            && (Selects(regex, ratio.left.expr.selector, series) <==> scope && Failed(regex, series))
            && (Selects(regex, ratio.right.expr.selector, series) <==> scope)
            && (Selects(regex, PercentilePlan(item, service, interval, r, q).expr.expr.expr.selector, series) <==>
                  scope && BelowInfinity(series))
            && (Selects(regex, InFlightPlan(item, service, r).expr.expr.selector, series) <==> scope)
  {
    hide Selects, SelectorWith, BaseMatchersOf, InScope, KindText, PurposeForQuantile;
    PlainSelects(regex, r, service, item.operation, series);
    ExtraSelects(regex, r, service, item.operation, StatusMatcher, series);
    ExtraSelects(regex, r, service, item.operation, BucketMatcher, series);
  }

  // ---- What the queries keep apart ----

  predicate SameGroup(x: Series, y: Series, groups: seq<string>) { GroupKey(x, groups) == GroupKey(y, groups) }

  predicate SameLabel(x: Series, y: Series, name: string) { Label(x, name) == Label(y, name) }

  lemma {:induction false} OneGroup(x: Series, y: Series, name: string)
    ensures SameGroup(x, y, [name]) <==> SameLabel(x, y, name)
    ensures SameGroup(x, y, [])
  {
    assert GroupKey(x, [name]) == [Label(x, name)] && GroupKey(y, [name]) == [Label(y, name)];
  }

  // Two series fall in one group of a rate exactly when they are of one operation; of a ratio's
  // sides and of a gauge sum so too, where the metric tells operations apart; under a percentile
  // exactly when they are of one bucket.
  lemma {:induction false} PlansKeepApart(
    item: Item, service: string, interval: string, r: SignalReference, q: real, x: Series, y: Series)
    ensures var ratio := ErrorRatioPlan(item, service, interval, r).expr;
            var operations := "operation" in r.attributes ==> SameLabel(x, y, "operation");
            && (SameGroup(x, y, RatePlan(item, service, interval, r).expr.groups) <==> SameLabel(x, y, "operation"))
            && (SameGroup(x, y, ratio.left.groups) <==> operations)
            && (SameGroup(x, y, ratio.right.groups) <==> operations)
            && (SameGroup(x, y, PercentilePlan(item, service, interval, r, q).expr.expr.groups) <==>
                  SameLabel(x, y, "le"))
            && (SameGroup(x, y, InFlightPlan(item, service, r).expr.groups) <==> operations)
  {
    hide SelectorWith, BaseMatchersOf, KindText, PurposeForQuantile, SameGroup, SameLabel;
    OneGroup(x, y, "operation");
    OneGroup(x, y, "le");
  }

  // The percentile queries are those of the three quantiles, each under its own purpose.
  lemma {:induction false} PercentilesAre(item: Item, service: string, interval: string)
    ensures var plans := PlanPercentiles(item, service, interval).plans;
            plans != [] ==>
              && |plans| == 3 && (forall i :: 0 <= i < 3 ==> plans[i].expr.Quantile?)
              && plans[0].purpose == "p50" && plans[0].expr.quantile == 0.50
              && plans[1].purpose == "p95" && plans[1].expr.quantile == 0.95
              && plans[2].purpose == "p99" && plans[2].expr.quantile == 0.99
  {
    hide SelectorWith, BaseMatchersOf, KindText, FirstSuiting;
  }

  // ---- The families' queries ----

  predicate InService(f: Family, service: string, series: Series)
  {
    series.metric == f.name && ("service" in f.attributes && service != "" ==> Label(series, "service") == service)
  }

  lemma {:induction false} FamilyMatchersPass(
    regex: (string, string) -> bool, f: Family, service: string, extra: seq<LabelMatcher>, series: Series)
    ensures series.metric == f.name && (forall m <- FamilyMatchers(f, service, extra) :: Passes(regex, m, series)) <==>
              InService(f, service, series) && forall m <- extra :: Passes(regex, m, series)
  {
    hide Label;
    var ms := FamilyMatchers(f, service, extra);
    var head := if service != "" && "service" in f.attributes then [ServiceMatcher(service)] else [];
    assert forall m :: m in ms <==> m in head || m in extra;
    assert head != [] ==> head[0] == ServiceMatcher(service) && head[0] in head;
  }

  lemma {:induction false} FamilySelects(
    regex: (string, string) -> bool, f: Family, service: string, extra: seq<LabelMatcher>, series: Series)
    ensures Selects(regex, FamilySelector(f, service, extra), series) <==>
              InService(f, service, series) && forall m <- extra :: Passes(regex, m, series)
  {
    hide Passes, SortBy, FamilyMatchers, InService, MatcherLeq;
    SortedSelects(regex, f.name, MatcherLeq, FamilyMatchers(f, service, extra), series);
    FamilyMatchersPass(regex, f, service, extra, series);
  }

  // A family's queries read the series of the whole family, of every operation.
  lemma {:induction false} FamilyQueriesSelectExactly(
    f: Family, service: string, interval: string, q: real, regex: (string, string) -> bool, series: Series)
    ensures var scope := InService(f, service, series);
            var ratio := ErrorRatioExpr(f, service, interval);
            && (Selects(regex, RateExpr(f, service, interval).expr.selector, series) <==> scope)
            && (Selects(regex, ratio.left.expr.selector, series) <==> scope && Failed(regex, series))
            && (Selects(regex, ratio.right.expr.selector, series) <==> scope)
            && (Selects(regex, PercentileExpr(f, service, interval, q).expr.expr.selector, series) <==>
                  scope && BelowInfinity(series))
            && (Selects(regex, InFlightExpr(f, service).expr.selector, series) <==> scope)
            && (Selects(regex, TopFailingExpr(f, service, interval).expr.selector, series) <==>
                  scope && Failed(regex, series))
  {
    hide Selects, FamilySelector, InService;
    FamilySelects(regex, f, service, [], series);
    FamilySelects(regex, f, service, [StatusMatcher], series);
    FamilySelects(regex, f, service, [BucketMatcher], series);
    assert [StatusMatcher][0] == StatusMatcher && [BucketMatcher][0] == BucketMatcher;
    assert StatusMatcher in [StatusMatcher] && BucketMatcher in [BucketMatcher];
  }

  // The same of a family's queries, which are summed over operations even where the family has no
  // such label, but for the gauge sum.
  lemma {:induction false} FamilyQueriesKeepApart(
    f: Family, service: string, interval: string, q: real, x: Series, y: Series)
    ensures var ratio := ErrorRatioExpr(f, service, interval);
            && (SameGroup(x, y, RateExpr(f, service, interval).groups) <==> SameLabel(x, y, "operation"))
            && (SameGroup(x, y, ratio.left.groups) <==> SameLabel(x, y, "operation"))
            && (SameGroup(x, y, ratio.right.groups) <==> SameLabel(x, y, "operation"))
            && (SameGroup(x, y, PercentileExpr(f, service, interval, q).expr.groups) <==> SameLabel(x, y, "le"))
            && (SameGroup(x, y, InFlightExpr(f, service).groups) <==>
                  ("operation" in f.attributes ==> SameLabel(x, y, "operation")))
            && (SameGroup(x, y, TopFailingExpr(f, service, interval).groups) <==> SameLabel(x, y, "operation"))
  {
    hide FamilySelector, SameGroup, SameLabel;
    OneGroup(x, y, "operation");
    OneGroup(x, y, "le");
  }
}
