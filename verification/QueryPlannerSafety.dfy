/** The planner against the validator: which emitted queries dashboard/query/validate.go accepts. */
module QueryPlannerSafety {
  import opened Ordering
  import opened QueryTypes
  import opened QueryNames
  import opened SelectorDomain
  import opened Catalog
  import opened QueryValidate
  import opened QueryAcceptance
  import opened QueryPlanner

  // What the last declaration of the selector's metric name says fits the selector.
  predicate DeclaredFor(c: Context, s: Selector)
  {
    && TypeOf(c, s.metricName) != ""
    && (LabelsOf(c, s.metricName) == []
        || forall m <- s.matchers :: m.name == "le" || m.name in LabelsOf(c, s.metricName))
  }

  // The whole condition under which a planned query is accepted.
  predicate Consistent(c: Context, plan: QueryPlan, interval: string)
  {
    && (forall s <- CollectSelectors(plan.expr) ::
          DeclaredFor(c, s) && (plan.kind == InFlightKind || TypeOf(c, s.metricName) != "gauge"))
    && (plan.kind == InFlightKind || interval == DefaultRateInterval)
  }

  // ---- The matchers the planner writes ----

  predicate PlannedMatcher(c: Context, status: bool, m: LabelMatcher)
  {
    || (m == ServiceMatcher(c.service) && ValidServiceValue(c.service))
    || (m == OperationMatcher(c.operation) && ValidOperationValue(c.operation))
    || (m == StatusMatcher && status && !c.inFlight)
    || m == BucketMatcher
  }

  lemma {:induction false} PlannedFine(c: Context, status: bool, s: Selector)
    requires ValidMetricName(s.metricName) && forall m <- s.matchers :: PlannedMatcher(c, status, m)
    ensures SelectorFine(c, status, s) <==> DeclaredFor(c, s)
  {
    hide ValidMetricName;
    forall m | m in s.matchers
      ensures MatcherFine(c, status, s.metricName, m) <==>
                (m.name == "le" || LabelsOf(c, s.metricName) == [] || m.name in LabelsOf(c, s.metricName))
    {
      assert PlannedMatcher(c, status, m);
      PlannedAllowed(c, status, m);
    }
  }

  lemma {:induction false} PlannedAllowed(c: Context, status: bool, m: LabelMatcher)
    requires PlannedMatcher(c, status, m)
    ensures ControlledMatcher(m)
  {
  }

  lemma {:induction false} PlannedControlled(c: Context, status: bool, s: Selector)
    requires ValidMetricName(s.metricName) && forall m <- s.matchers :: PlannedMatcher(c, status, m)
    ensures ControlledSelector(s)
  {
    forall m | m in s.matchers ensures ControlledMatcher(m) { PlannedAllowed(c, status, m); }
  }

  lemma {:induction false} BasePlanned(c: Context, status: bool, r: SignalReference)
    requires c.service == "" || ValidServiceValue(c.service)
    ensures forall m <- BaseMatchersOf(r, c.service, c.operation) :: PlannedMatcher(c, status, m) && m.name != "status"
  {
    hide ValidServiceValue, ValidOperationValue;
  }

  lemma {:induction false} SortedPlanned(c: Context, status: bool, ms: seq<LabelMatcher>)
    requires forall m <- ms :: PlannedMatcher(c, status, m)
    ensures forall m <- SortBy(LabelLeq, ms) :: PlannedMatcher(c, status, m)
  {
    hide PlannedMatcher;
    SameMembers(LabelLeq, ms);
  }

  lemma {:induction false} SameMembers<T>(leq: (T, T) -> bool, xs: seq<T>)
    ensures forall x :: x in SortBy(leq, xs) <==> x in xs
  {
    forall x ensures x in SortBy(leq, xs) <==> x in xs {
      assert x in SortBy(leq, xs) <==> x in multiset(SortBy(leq, xs));
      assert x in xs <==> x in multiset(xs);
    }
  }

  lemma {:induction false} NonStatusCount(ms: seq<LabelMatcher>, m: LabelMatcher)
    ensures multiset(NonStatus(ms))[m] == if m.name != "status" then multiset(ms)[m] else 0
  {
    if ms != [] {
      NonStatusCount(ms[1..], m);
      assert ms == [ms[0]] + ms[1..];
    }
  }

  // The numerator's extra status matcher does not change its scope.
  lemma {:induction false} SameScope(name: string, base: seq<LabelMatcher>)
    ensures ScopeOf(SelectorWith(name, base + [StatusMatcher])) == ScopeOf(Selector(name, base))
  {
    var sorted := SortBy(LabelLeq, base + [StatusMatcher]);
    forall m ensures multiset(NonStatus(sorted))[m] == multiset(NonStatus(base))[m] {
      NonStatusCount(sorted, m);
      NonStatusCount(base, m);
    }
    assert multiset(NonStatus(sorted)) == multiset(NonStatus(base));
  }

  // ---- The shapes the planner emits ----

  lemma {:induction false} RatedSumFine(
    c: Context, groups: seq<string>, s: Selector, interval: string, status: bool, depth: nat)
    requires depth <= 7 && ValidMetricName(s.metricName) && forall m <- s.matchers :: PlannedMatcher(c, status, m)
    requires forall g <- groups :: InVocabulary(g)
    ensures EverySiteFine(c, Sum(groups, Rate(s, interval)), status, depth) <==>
              DeclaredFor(c, s) && TypeOf(c, s.metricName) != "gauge" && interval == DefaultRateInterval
  {
    hide ValidMetricName, PlannedMatcher, DeclaredFor, SelectorFine, EverySiteFine;
    SitesTogether(c, Sum(groups, Rate(s, interval)), status, depth);
    SitesTogether(c, Rate(s, interval), status, depth + 1);
    PlannedFine(c, status, s);
  }

  lemma {:induction false} OwnMetricTraceable(
    item: Item, kind: QueryKind, purpose: string, r: SignalReference, expr: Expr)
    requires r in item.metrics
    ensures Traceable(PlanFor(item, kind, purpose, r, expr), item)
  {
  }

  lemma {:induction false} RateConsistent(item: Item, service: string, interval: string, r: SignalReference)
    requires service == "" || ValidServiceValue(service)
    requires r in item.metrics && ValidMetricName(r.name)
    ensures var plan := RatePlan(item, service, interval, r);
            PlanViolations(plan, item, service) == [] <==> Consistent(PlanContext(plan, item, service), plan, interval)
  {
    hide PlanViolations, EverySiteFine, DeclaredFor, ValidMetricName, PlannedMatcher, BaseMatchersOf, SortBy;
    var plan := RatePlan(item, service, interval, r);
    var c := PlanContext(plan, item, service);
    AcceptedExactlyWhen(plan, item, service);
    BasePlanned(c, false, r);
    SortedPlanned(c, false, BaseMatchersOf(r, service, item.operation));
    OwnMetricTraceable(item, RateKind, "rate", r, plan.expr);
    RatedSumFine(c, ["operation"], plan.expr.expr.selector, interval, false, 0);
    assert CollectSelectors(plan.expr) == [plan.expr.expr.selector];
  }

  lemma {:induction false} PercentileConsistent(
    item: Item, service: string, interval: string, r: SignalReference, q: real)
    requires service == "" || ValidServiceValue(service)
    requires r in item.metrics && ValidMetricName(r.name) && q in FixedQuantiles
    ensures var plan := PercentilePlan(item, service, interval, r, q);
            PlanViolations(plan, item, service) == [] <==> Consistent(PlanContext(plan, item, service), plan, interval)
  {
    hide PlanViolations, EverySiteFine, DeclaredFor, ValidMetricName, BaseMatchersOf, SortBy;
    var plan := PercentilePlan(item, service, interval, r, q);
    var c := PlanContext(plan, item, service);
    AcceptedExactlyWhen(plan, item, service);
    BasePlanned(c, false, r);
    SortedPlanned(c, false, BaseMatchersOf(r, service, item.operation) + [BucketMatcher]);
    SitesTogether(c, plan.expr, false, 0);
    OwnMetricTraceable(item, PercentileKind, PurposeForQuantile(q), r, plan.expr);
    RatedSumFine(c, ["le"], plan.expr.expr.expr.selector, interval, false, 1);
    assert CollectSelectors(plan.expr.expr) == [plan.expr.expr.expr.selector];
  }

  lemma {:induction false} InFlightConsistent(item: Item, service: string, interval: string, r: SignalReference)
    requires service == "" || ValidServiceValue(service)
    requires r in item.metrics && ValidMetricName(r.name)
    ensures var plan := InFlightPlan(item, service, r);
            PlanViolations(plan, item, service) == [] <==> Consistent(PlanContext(plan, item, service), plan, interval)
  {
    hide PlanViolations, EverySiteFine, DeclaredFor, ValidMetricName, PlannedMatcher, BaseMatchersOf, SortBy,
        SelectorFine;
    var plan := InFlightPlan(item, service, r);
    var c := PlanContext(plan, item, service);
    AcceptedExactlyWhen(plan, item, service);
    BasePlanned(c, false, r);
    SortedPlanned(c, false, BaseMatchersOf(r, service, item.operation));
    SitesTogether(c, plan.expr, false, 0);
    SitesTogether(c, plan.expr.expr, false, 1);
    OwnMetricTraceable(item, InFlightKind, "in_flight", r, plan.expr);
    PlannedFine(c, false, plan.expr.expr.selector);
    assert CollectSelectors(plan.expr) == [plan.expr.expr.selector];
  }

  lemma {:induction false} ErrorRatioConsistent(item: Item, service: string, interval: string, r: SignalReference)
    requires service == "" || ValidServiceValue(service)
    requires r in item.metrics && ValidMetricName(r.name)
    ensures var plan := ErrorRatioPlan(item, service, interval, r);
            PlanViolations(plan, item, service) == [] <==> Consistent(PlanContext(plan, item, service), plan, interval)
  {
    hide PlanViolations, EverySiteFine, DeclaredFor, ValidMetricName, BaseMatchersOf, SortBy, SameDomain, ScopeOf,
        ControlledSelector;
    var plan := ErrorRatioPlan(item, service, interval, r);
    var c := PlanContext(plan, item, service);
    AcceptedExactlyWhen(plan, item, service);
    var base := BaseMatchersOf(r, service, item.operation);
    BasePlanned(c, true, r);
    BasePlanned(c, false, r);
    SortedPlanned(c, true, base + [StatusMatcher]);
    var top, bottom := plan.expr.left.expr.selector, plan.expr.right.expr.selector;
    SameScope(r.name, base);
    PlannedControlled(c, true, top);
    PlannedControlled(c, false, bottom);
    assert Apply(ScopeOf, [top]) == Apply(ScopeOf, [bottom]);
    SameDomainExactlyWhen([top], [bottom]);
    assert CollectSelectors(plan.expr.left) == [top];
    assert CollectSelectors(plan.expr.right) == [bottom];
    OwnMetricTraceable(item, ErrorRatioKind, "error_ratio", r, plan.expr);
    SitesTogether(c, plan.expr, false, 0);
    RatedSumFine(c, ByOperation(r), top, interval, true, 1);
    RatedSumFine(c, ByOperation(r), bottom, interval, false, 1);
  }

  // ---- Every emitted query ----

  // An emitted query is built from one of the item's metrics, chosen by type, valid name and attributes.
  ghost predicate BuiltFrom(item: Item, service: string, interval: string, plan: QueryPlan, r: SignalReference)
  {
    && r in item.metrics && ValidMetricName(r.name)
    && (|| (plan == RatePlan(item, service, interval, r) && Suits(r, "counter", ["service", "operation"]))
        || (plan == ErrorRatioPlan(item, service, interval, r) && Suits(r, "counter", ["status"]))
        || (exists q :: q in FixedQuantiles && plan == PercentilePlan(item, service, interval, r, q)
                        && Suits(r, "histogram", ["service", "operation"]))
        || (plan == InFlightPlan(item, service, r) && Suits(r, "gauge", [])))
  }

  lemma {:induction false} EmittedClass(item: Item, raw: string, interval: string, plan: QueryPlan)
    requires plan in PlansOf(item, raw, interval)
    ensures var service := ValidatedService(raw);
            || plan in PlanRate(item, service, interval).plans
            || plan in PlanErrorRatio(item, service, interval).plans
            || plan in PlanPercentiles(item, service, interval).plans
            || plan in PlanInFlight(item, service).plans
  {
    hide PlanRate, PlanErrorRatio, PlanPercentiles, PlanInFlight, SortBy, ValidatedService;
    SameMembers(KeyLeq, UnsortedPlans(item, ValidatedService(raw), interval));
  }

  lemma {:induction false} RateBuilt(item: Item, service: string, interval: string, plan: QueryPlan)
    returns (r: SignalReference)
    requires plan in PlanRate(item, service, interval).plans
    ensures BuiltFrom(item, service, interval, plan, r) && plan.kind == RateKind
  {
    hide HasAttributes, ValidMetricName;
    r := FirstSuiting(item.metrics, "counter", ["service", "operation"]).value;
  }

  lemma {:induction false} ErrorRatioBuilt(item: Item, service: string, interval: string, plan: QueryPlan)
    returns (r: SignalReference)
    requires plan in PlanErrorRatio(item, service, interval).plans
    ensures BuiltFrom(item, service, interval, plan, r) && plan.kind == ErrorRatioKind
  {
    hide HasAttributes, ValidMetricName;
    r := FirstSuiting(item.metrics, "counter", ["status"]).value;
  }

  lemma {:induction false} PercentileBuilt(item: Item, service: string, interval: string, plan: QueryPlan)
    returns (r: SignalReference)
    requires plan in PlanPercentiles(item, service, interval).plans
    ensures BuiltFrom(item, service, interval, plan, r) && plan.kind == PercentileKind
  {
    hide HasAttributes, ValidMetricName, PurposeForQuantile, SelectorWith, BaseMatchersOf;
    r := FirstSuiting(item.metrics, "histogram", ["service", "operation"]).value;
    assert FixedQuantiles[0] == 0.50 && FixedQuantiles[1] == 0.95 && FixedQuantiles[2] == 0.99;
    assert plan == PercentilePlan(item, service, interval, r, FixedQuantiles[0])
        || plan == PercentilePlan(item, service, interval, r, FixedQuantiles[1])
        || plan == PercentilePlan(item, service, interval, r, FixedQuantiles[2]);
  }

  lemma {:induction false} InFlightBuilt(item: Item, service: string, interval: string, plan: QueryPlan)
    returns (r: SignalReference)
    requires plan in PlanInFlight(item, service).plans
    ensures BuiltFrom(item, service, interval, plan, r) && plan.kind == InFlightKind
  {
    hide HasAttributes, ValidMetricName;
    r := FirstSuiting(item.metrics, "gauge", []).value;
  }

  lemma {:induction false} EmittedIsBuilt(item: Item, raw: string, interval: string, plan: QueryPlan)
    returns (r: SignalReference)
    requires plan in PlansOf(item, raw, interval)
    ensures BuiltFrom(item, ValidatedService(raw), interval, plan, r)
  {
    hide PlansOf, BuiltFrom, PlanRate, PlanErrorRatio, PlanPercentiles, PlanInFlight;
    var service := ValidatedService(raw);
    EmittedClass(item, raw, interval, plan);
    if plan in PlanRate(item, service, interval).plans {
      r := RateBuilt(item, service, interval, plan);
    } else if plan in PlanErrorRatio(item, service, interval).plans {
      r := ErrorRatioBuilt(item, service, interval, plan);
    } else if plan in PlanPercentiles(item, service, interval).plans {
      r := PercentileBuilt(item, service, interval, plan);
    } else {
      r := InFlightBuilt(item, service, interval, plan);
    }
  }

  // The planner's output meets the validator exactly when the declarations of its metric names do
  // not contradict each other and the policy's rate interval is the fixed one.
  lemma {:induction false} AcceptedExactlyWhenConsistent(item: Item, raw: string, interval: string, plan: QueryPlan)
    requires plan in PlansOf(item, raw, interval)
    ensures var service := ValidatedService(raw);
            PlanViolations(plan, item, service) == [] <==> Consistent(PlanContext(plan, item, service), plan, interval)
  {
    hide RatePlan, ErrorRatioPlan, PercentilePlan, InFlightPlan, PlansOf, PlanViolations, Consistent, Suits,
        ValidMetricName;
    var service := ValidatedService(raw);
    var r := EmittedIsBuilt(item, raw, interval, plan);
    if plan == RatePlan(item, service, interval, r) {
      RateConsistent(item, service, interval, r);
    } else if plan == ErrorRatioPlan(item, service, interval, r) {
      ErrorRatioConsistent(item, service, interval, r);
    } else if plan == InFlightPlan(item, service, r) {
      InFlightConsistent(item, service, interval, r);
    } else {
      var q :| q in FixedQuantiles && plan == PercentilePlan(item, service, interval, r, q);
      PercentileConsistent(item, service, interval, r, q);
    }
  }

  // A selector on the metric itself that uses only its own labels, and `le`.
  predicate OnMetric(s: Selector, r: SignalReference)
  {
    s.metricName == r.name && forall m <- s.matchers :: m.name == "le" || m.name in r.attributes
  }

  lemma {:induction false} BaseOnMetric(r: SignalReference, service: string, operation: string)
    ensures forall m <- BaseMatchersOf(r, service, operation) :: m.name in r.attributes
    ensures OnMetric(Selector(r.name, BaseMatchersOf(r, service, operation)), r)
    ensures OnMetric(SelectorWith(r.name, BaseMatchersOf(r, service, operation)), r)
    ensures OnMetric(SelectorWith(r.name, BaseMatchersOf(r, service, operation) + [BucketMatcher]), r)
    ensures "status" in r.attributes ==>
              OnMetric(SelectorWith(r.name, BaseMatchersOf(r, service, operation) + [StatusMatcher]), r)
  {
    hide SelectorWith, OnMetric;
    var base := BaseMatchersOf(r, service, operation);
    BaseLabels(r, service, operation);
    UnsortedOnMetric(r, base);
    SortedOnMetric(r, base);
    SortedOnMetric(r, base + [BucketMatcher]);
    if "status" in r.attributes { SortedOnMetric(r, base + [StatusMatcher]); }
  }

  lemma {:induction false} BaseLabels(r: SignalReference, service: string, operation: string)
    ensures forall m <- BaseMatchersOf(r, service, operation) :: m.name in r.attributes
  {
    hide ValidOperationValue;
  }

  lemma {:induction false} UnsortedOnMetric(r: SignalReference, ms: seq<LabelMatcher>)
    requires forall m <- ms :: m.name == "le" || m.name in r.attributes
    ensures OnMetric(Selector(r.name, ms), r)
  {
  }

  lemma {:induction false} SortedOnMetric(r: SignalReference, ms: seq<LabelMatcher>)
    requires forall m <- ms :: m.name == "le" || m.name in r.attributes
    ensures OnMetric(SelectorWith(r.name, ms), r)
  {
    SameMembers(LabelLeq, ms);
  }

  lemma {:induction false} PlanSelectors(
    item: Item, service: string, interval: string, plan: QueryPlan, r: SignalReference)
    requires BuiltFrom(item, service, interval, plan, r)
    ensures forall s <- CollectSelectors(plan.expr) :: OnMetric(s, r)
    ensures r.typ != "" && (plan.kind == InFlightKind || r.typ != "gauge")
  {
    hide ValidMetricName, SelectorWith, BaseMatchersOf, OnMetric, KindText;
    BaseOnMetric(r, service, item.operation);
    if plan == RatePlan(item, service, interval, r) {
      assert CollectSelectors(plan.expr) == [plan.expr.expr.selector];
    } else if plan == ErrorRatioPlan(item, service, interval, r) {
      assert CollectSelectors(plan.expr.left) == [plan.expr.left.expr.selector];
      assert CollectSelectors(plan.expr.right) == [plan.expr.right.expr.selector];
    } else if plan == InFlightPlan(item, service, r) {
      assert CollectSelectors(plan.expr) == [plan.expr.expr.selector];
    } else {
      assert CollectSelectors(plan.expr.expr) == [plan.expr.expr.expr.selector];
    }
  }

  // With distinct metric names and the fixed interval, the planner never emits a query the
  // validator rejects; with another interval exactly the in-flight queries survive.
  lemma {:induction false} PlannerIsSafe(item: Item, raw: string, interval: string)
    requires DistinctNames(item.metrics)
    ensures forall plan <- PlansOf(item, raw, interval) ::
              PlanViolations(plan, item, ValidatedService(raw)) == [] <==>
                (plan.kind == InFlightKind || interval == DefaultRateInterval)
  {
    hide PlansOf, PlanViolations, BuiltFrom, CollectSelectors;
    forall plan | plan in PlansOf(item, raw, interval)
      ensures PlanViolations(plan, item, ValidatedService(raw)) == [] <==>
                (plan.kind == InFlightKind || interval == DefaultRateInterval)
    {
      var service := ValidatedService(raw);
      var c := PlanContext(plan, item, service);
      AcceptedExactlyWhenConsistent(item, raw, interval, plan);
      var r := EmittedIsBuilt(item, raw, interval, plan);
      PlanSelectors(item, service, interval, plan, r);
      BuiltMember(item, service, interval, plan, r);
      assert forall s <- CollectSelectors(plan.expr) :: OnMetric(s, r);
      var k :| 0 <= k < |item.metrics| && item.metrics[k] == r;
      LastDeclarationRules(item.metrics, k);
      assert TypeOf(c, r.name) == r.typ && LabelsOf(c, r.name) == r.attributes;
    }
  }

  lemma {:induction false} BuiltMember(
    item: Item, service: string, interval: string, plan: QueryPlan, r: SignalReference)
    requires BuiltFrom(item, service, interval, plan, r)
    ensures r in item.metrics
  {
  }

  // Two metrics of one name: the planner takes the first, the validator reads the last.
  lemma {:induction false} RepeatedNameIsRejected()
    ensures var first := SignalReference("p", "m", "counter", "", ["operation", "service"]);
            var last := SignalReference("q", "m", "counter", "", ["status"]);
            var item := Item("i", "http", "get", [first, last], [], Capabilities(true, false, false, false, false));
            var plan := RatePlan(item, "api", DefaultRateInterval, first);
            plan in PlansOf(item, "api", DefaultRateInterval) && PlanViolations(plan, item, "api") != []
  {
    hide PlanViolations, SortBy, PlanFor;
    var first := SignalReference("p", "m", "counter", "", ["operation", "service"]);
    var last := SignalReference("q", "m", "counter", "", ["status"]);
    var item := Item("i", "http", "get", [first, last], [], Capabilities(true, false, false, false, false));
    var plan := RatePlan(item, "api", DefaultRateInterval, first);
    assert ValidServiceValue("api") && ValidatedService("api") == "api";
    assert Suits(first, "counter", ["service", "operation"]);
    FirstSuitingAt(item.metrics, "counter", ["service", "operation"], 0);
    SameMembers(KeyLeq, UnsortedPlans(item, "api", DefaultRateInterval));
    assert plan in PlanRate(item, "api", DefaultRateInterval).plans;
    assert plan in PlansOf(item, "api", DefaultRateInterval);
    AcceptedExactlyWhenConsistent(item, "api", DefaultRateInterval, plan);
    LastDeclarationRules(item.metrics, 1);
    NotDeclared(item, plan, first);
  }

  lemma {:induction false} NotDeclared(item: Item, plan: QueryPlan, first: SignalReference)
    requires first == SignalReference("p", "m", "counter", "", ["operation", "service"])
    requires plan == RatePlan(item, "api", DefaultRateInterval, first)
    requires "m" in SchemasOf(item.metrics) && SchemasOf(item.metrics)["m"] == ["status"]
    ensures !Consistent(PlanContext(plan, item, "api"), plan, DefaultRateInterval)
  {
    hide SortBy, ValidOperationValue;
    var s := plan.expr.expr.selector;
    var base := BaseMatchersOf(first, "api", item.operation);
    SameMembers(LabelLeq, base);
    assert first.attributes == ["operation", "service"];
    assert ["operation", "service"][1] == "service";
    assert base[0] == ServiceMatcher("api");
    assert ServiceMatcher("api") in s.matchers;
    assert CollectSelectors(plan.expr) == [s];
    assert s in CollectSelectors(plan.expr);
  }

  // ---- The order of the queries ----

  // The queries of an item have different keys, so sorting them leaves no choice.
  lemma {:induction false} KeysAreDistinct(item: Item, raw: string, interval: string)
    ensures NoTies(KeyLeq, multiset(UnsortedPlans(item, ValidatedService(raw), interval)))
  {
    hide UnsortedPlans, StringLeq;
    var plans := UnsortedPlans(item, ValidatedService(raw), interval);
    forall a, b | a in multiset(plans) && b in multiset(plans) && KeyLeq(a, b) && KeyLeq(b, a) ensures a == b {
      StringLeqAntisymmetric(a.canonicalKey, b.canonicalKey);
      SameKeySamePlan(item, ValidatedService(raw), interval, a, b);
    }
  }

  lemma {:induction false} SameKeySamePlan(item: Item, service: string, interval: string, a: QueryPlan, b: QueryPlan)
    requires a in UnsortedPlans(item, service, interval) && b in UnsortedPlans(item, service, interval)
    requires a.canonicalKey == b.canonicalKey
    ensures a == b
  {
    hide UnsortedPlans, KindText;
    ClassOf(item, service, interval, a);
    ClassOf(item, service, interval, b);
    SameKeySameKind(item.id, a, b);
    OnePerPurpose(item, service, interval, a, b);
  }

  predicate Keyed(plan: QueryPlan, id: string)
  {
    plan.canonicalKey == "query:" + KindText(plan.kind) + ":" + id + ":" + plan.purpose
  }

  lemma {:induction false} ClassOf(item: Item, service: string, interval: string, plan: QueryPlan)
    requires plan in UnsortedPlans(item, service, interval)
    ensures Keyed(plan, item.id)
    ensures plan.kind == RateKind || plan.kind == ErrorRatioKind || plan.kind == PercentileKind
        || plan.kind == InFlightKind
  {
    hide PlanRate, PlanErrorRatio, PlanPercentiles, PlanInFlight, Keyed;
    if plan in PlanPercentiles(item, service, interval).plans {
      PercentileKeyed(item, service, interval, plan);
    } else {
      SingleKeyed(item, service, interval, plan);
    }
  }

  lemma {:induction false} PercentileKeyed(item: Item, service: string, interval: string, plan: QueryPlan)
    requires plan in PlanPercentiles(item, service, interval).plans
    ensures Keyed(plan, item.id) && plan.kind == PercentileKind
  {
    hide FirstSuiting, SelectorWith, BaseMatchersOf, KindText, PurposeForQuantile;
  }

  lemma {:induction false} SingleKeyed(item: Item, service: string, interval: string, plan: QueryPlan)
    requires || plan in PlanRate(item, service, interval).plans
             || plan in PlanErrorRatio(item, service, interval).plans
             || plan in PlanInFlight(item, service).plans
    ensures Keyed(plan, item.id)
    ensures plan.kind == RateKind || plan.kind == ErrorRatioKind || plan.kind == InFlightKind
  {
    hide FirstSuiting, SelectorWith, BaseMatchersOf, KindText;
  }

  lemma {:induction false} SameKeySameKind(id: string, a: QueryPlan, b: QueryPlan)
    requires Keyed(a, id) && Keyed(b, id) && a.canonicalKey == b.canonicalKey
    requires a.kind == RateKind || a.kind == ErrorRatioKind || a.kind == PercentileKind || a.kind == InFlightKind
    requires b.kind == RateKind || b.kind == ErrorRatioKind || b.kind == PercentileKind || b.kind == InFlightKind
    ensures a.kind == b.kind && a.purpose == b.purpose
  {
    assert a.canonicalKey[6] == KindText(a.kind)[0] && b.canonicalKey[6] == KindText(b.kind)[0];
    var front := "query:" + KindText(a.kind) + ":" + id + ":";
    assert a.canonicalKey == front + a.purpose && b.canonicalKey == front + b.purpose;
    assert a.purpose == a.canonicalKey[|front|..] && b.purpose == b.canonicalKey[|front|..];
  }

  lemma {:induction false} OnePerPurpose(item: Item, service: string, interval: string, a: QueryPlan, b: QueryPlan)
    requires a in UnsortedPlans(item, service, interval) && b in UnsortedPlans(item, service, interval)
    requires a.kind == b.kind && a.purpose == b.purpose
    ensures a == b
  {
    hide PlanRate, PlanErrorRatio, PlanPercentiles, PlanInFlight;
    KindIsClass(item, service, interval, a);
    KindIsClass(item, service, interval, b);
    match a.kind
    case PercentileKind => SamePercentile(item, service, interval, a, b);
    case _ => SameSingle(item, service, interval, a, b);
  }

  lemma {:induction false} KindIsClass(item: Item, service: string, interval: string, plan: QueryPlan)
    requires plan in UnsortedPlans(item, service, interval)
    ensures plan.kind == RateKind ==> plan in PlanRate(item, service, interval).plans
    ensures plan.kind == ErrorRatioKind ==> plan in PlanErrorRatio(item, service, interval).plans
    ensures plan.kind == PercentileKind ==> plan in PlanPercentiles(item, service, interval).plans
    ensures plan.kind == InFlightKind ==> plan in PlanInFlight(item, service).plans
    ensures plan.kind == RateKind || plan.kind == ErrorRatioKind || plan.kind == PercentileKind
        || plan.kind == InFlightKind
  {
    hide PlanRate, PlanErrorRatio, PlanPercentiles, PlanInFlight, BuiltFrom;
    if plan in PlanRate(item, service, interval).plans {
      var _ := RateBuilt(item, service, interval, plan);
    } else if plan in PlanErrorRatio(item, service, interval).plans {
      var _ := ErrorRatioBuilt(item, service, interval, plan);
    } else if plan in PlanPercentiles(item, service, interval).plans {
      var _ := PercentileBuilt(item, service, interval, plan);
    } else {
      var _ := InFlightBuilt(item, service, interval, plan);
    }
  }

  lemma {:induction false} SamePercentile(item: Item, service: string, interval: string, a: QueryPlan, b: QueryPlan)
    requires a in PlanPercentiles(item, service, interval).plans && b in PlanPercentiles(item, service, interval).plans
    requires a.purpose == b.purpose
    ensures a == b
  {
    hide FirstSuiting, SelectorWith, BaseMatchersOf, KindText;
    assert "p50"[2] != "p95"[2] && "p50"[2] != "p99"[2] && "p95"[2] != "p99"[2];
  }

  lemma {:induction false} SameSingle(item: Item, service: string, interval: string, a: QueryPlan, b: QueryPlan)
    requires || (a in PlanRate(item, service, interval).plans && b in PlanRate(item, service, interval).plans)
             || (a in PlanErrorRatio(item, service, interval).plans
                 && b in PlanErrorRatio(item, service, interval).plans)
             || (a in PlanInFlight(item, service).plans && b in PlanInFlight(item, service).plans)
    ensures a == b
  {
    hide FirstSuiting, RatePlan, ErrorRatioPlan, InFlightPlan;
  }
}
