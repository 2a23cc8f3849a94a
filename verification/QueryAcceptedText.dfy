/** The validator against the parser: when the text of an accepted query reads back. */
module QueryAcceptedText {
  import opened Ordering
  import opened QueryTypes
  import opened QueryNames
  import opened QueryRoundTrip
  import opened QueryInverse
  import opened SelectorDomain
  import opened Catalog
  import opened QueryValidate
  import opened QueryAcceptance
  import opened QueryRatio
  import opened QueryPlanner
  import opened QueryPlannerSafety

  predicate NoColon(name: string) { forall i :: 0 <= i < |name| ==> name[i] != ':' }

  // Metric names may hold colons for the validator but not for the lexer, and outside rate(...) a
  // name must not be a function name.
  predicate NamesReadBack(e: Expr)
  {
    match e
    case Select(s) => NoColon(s.metricName) && !Keyword(s.metricName)
    case Rate(s, _) => NoColon(s.metricName)
    case Sum(_, inner) => NamesReadBack(inner)
    case Quantile(_, inner) => NamesReadBack(inner)
    case Divide(l, r) => NamesReadBack(l) && NamesReadBack(r)
    case _ => true
  }

  lemma {:induction false} ValidNameIdentifier(name: string)
    requires ValidMetricName(name)
    ensures IsIdentifier(name) <==> NoColon(name)
  {
  }

  lemma {:induction false} VocabularyIdentifier(name: string)
    requires InVocabulary(name)
    ensures IsIdentifier(name)
  {
  }

  lemma {:induction false} ControlledPrints(lib: Strconv, m: LabelMatcher)
    requires AllowedMatcher(m)
    ensures PlainValue(lib, m.value)
  {
    if m.name == "le" || m.op.MatchRegex? {
      assert PlainValue(lib, BucketBoundary) && PlainValue(lib, ErrorStatusPattern);
    }
  }

  lemma {:induction false} SelectorReads(lib: Strconv, c: Context, status: bool, s: Selector)
    requires SelectorFine(c, status, s) && forall m <- s.matchers :: !m.op.OtherOp?
    ensures SelectorShape(s) <==> NoColon(s.metricName)
    ensures SelectorPrintable(lib, s)
  {
    hide ValidMetricName, AllowedMatcher, InVocabulary, IsIdentifier, NoColon, PlainValue;
    ValidNameIdentifier(s.metricName);
    forall m | m in s.matchers ensures IsIdentifier(m.name) && PlainValue(lib, m.value) {
      assert MatcherFine(c, status, s.metricName, m);
      AllowedName(m);
      VocabularyIdentifier(m.name);
      ControlledPrints(lib, m);
    }
  }

  lemma {:induction false} AllowedName(m: LabelMatcher)
    requires AllowedMatcher(m)
    ensures InVocabulary(m.name)
  {
  }

  lemma {:induction false} AcceptedReads(lib: Strconv, c: Context, e: Expr, status: bool, depth: nat)
    requires EverySiteFine(c, e, status, depth) && KnownOperators(e)
    ensures Shape(e) <==> NamesReadBack(e)
    ensures Printable(lib, e)
    decreases e
  {
    hide EverySiteFine, SelectorFine, SelectorShape, SelectorPrintable, NoColon, Keyword, SameDomain, InVocabulary,
        IsIdentifier;
    SitesTogether(c, e, status, depth);
    match e
    case Select(s) => SelectorReads(lib, c, status, s);
    case Rate(s, interval) =>
      SelectorReads(lib, c, status, s);
      IntervalReads();
    case Sum(groups, inner) =>
      forall g | g in groups ensures IsIdentifier(g) { VocabularyIdentifier(g); }
      AcceptedReads(lib, c, inner, status, depth + 1);
    case Quantile(_, inner) => AcceptedReads(lib, c, inner, status, depth + 1);
    case Divide(l, r) =>
      AcceptedReads(lib, c, l, status || c.errorRatio, depth + 1);
      AcceptedReads(lib, c, r, status, depth + 1);
    case _ =>
  }

  lemma {:induction false} IntervalReads()
    ensures IsIdentifier(DefaultRateInterval)
  {
  }

  // An accepted query prints to text that parses back to the same tree exactly when no metric
  // name holds a colon and no standing selector is named like a function.
  lemma {:induction false} AcceptedRoundTripsExactlyWhen(lib: Strconv, plan: QueryPlan, item: Item, service: string)
    requires PlanViolations(plan, item, service) == [] && KnownOperators(plan.expr) && PlainNumbers(lib, plan.expr)
    ensures RoundTrips(lib, plan.expr) <==> NamesReadBack(plan.expr)
  {
    hide PlanViolations, EverySiteFine, Shape, Printable, RoundTrips, PlainNumbers, NamesReadBack, KnownOperators;
    AcceptedExactlyWhen(plan, item, service);
    AcceptedReads(lib, PlanContext(plan, item, service), plan.expr, false, 0);
    RoundTripExactlyWhen(lib, plan.expr);
  }

  // The planner's own queries: the text of each reads back exactly when the chosen metric's name
  // holds no colon and, in flight, is not a function name.
  lemma {:induction false} PlannedTextReadsBack(lib: Strconv, item: Item, raw: string, plan: QueryPlan)
    returns (r: SignalReference)
    requires DistinctNames(item.metrics)
    requires plan in PlansOf(item, raw, DefaultRateInterval) && PlainNumbers(lib, plan.expr)
    ensures r in item.metrics && plan.planIDs == [r.planID]
    ensures forall s <- CollectSelectors(plan.expr) :: s.metricName == r.name
    ensures RoundTrips(lib, plan.expr) <==>
              NoColon(r.name) && (plan.kind == InFlightKind ==> !Keyword(r.name))
  {
    hide PlansOf, PlanViolations, RoundTrips, PlainNumbers, NamesReadBack, KnownOperators, BuiltFrom, CollectSelectors;
    var service := ValidatedService(raw);
    PlannerIsSafe(item, raw, DefaultRateInterval);
    r := EmittedIsBuilt(item, raw, DefaultRateInterval, plan);
    BuiltMember(item, service, DefaultRateInterval, plan, r);
    PlannedOperators(item, service, DefaultRateInterval, plan, r);
    PlannedNames(item, service, DefaultRateInterval, plan, r);
    PlannedSelectors(item, service, DefaultRateInterval, plan, r);
    AcceptedRoundTripsExactlyWhen(lib, plan, item, service);
  }

  lemma {:induction false} PlannedNames(
    item: Item, service: string, interval: string, plan: QueryPlan, r: SignalReference)
    requires BuiltFrom(item, service, interval, plan, r)
    ensures plan.planIDs == [r.planID]
    ensures NamesReadBack(plan.expr) <==> NoColon(r.name) && (plan.kind == InFlightKind ==> !Keyword(r.name))
  {
    hide ValidMetricName, NoColon, Keyword, SortBy, BaseMatchersOf, KindText, HasAttributes;
    if plan == RatePlan(item, service, interval, r) {
    } else if plan == ErrorRatioPlan(item, service, interval, r) {
      assert NamesReadBack(plan.expr.left) <==> NoColon(r.name);
      assert NamesReadBack(plan.expr.right) <==> NoColon(r.name);
    } else if plan == InFlightPlan(item, service, r) {
    } else {
      assert NamesReadBack(plan.expr.expr) <==> NoColon(r.name);
    }
  }

  // Every selector of a planned query names the chosen metric.
  lemma {:induction false} PlannedSelectors(
    item: Item, service: string, interval: string, plan: QueryPlan, r: SignalReference)
    requires BuiltFrom(item, service, interval, plan, r)
    ensures forall s <- CollectSelectors(plan.expr) :: s.metricName == r.name
  {
    hide ValidMetricName, SortBy, BaseMatchersOf, KindText, HasAttributes;
    if plan == RatePlan(item, service, interval, r) {
      assert CollectSelectors(plan.expr) == [plan.expr.expr.selector];
    } else if plan == ErrorRatioPlan(item, service, interval, r) {
      assert CollectSelectors(plan.expr.left) == [plan.expr.left.expr.selector];
      assert CollectSelectors(plan.expr.right) == [plan.expr.right.expr.selector];
    } else if plan == InFlightPlan(item, service, r) {
      assert CollectSelectors(plan.expr) == [plan.expr.expr.selector];
    } else {
      assert CollectSelectors(plan.expr.expr) == [plan.expr.expr.expr.selector];
    }
  }

  lemma {:induction false} PlannedOperators(
    item: Item, service: string, interval: string, plan: QueryPlan, r: SignalReference)
    requires BuiltFrom(item, service, interval, plan, r)
    ensures KnownOperators(plan.expr)
  {
    hide ValidMetricName, SelectorWith, BaseMatchersOf, KindText, HasAttributes;
    var base := BaseMatchersOf(r, service, item.operation);
    BaseOperators(r, service, item.operation);
    SortedOperators(r.name, base);
    SortedOperators(r.name, base + [StatusMatcher]);
    SortedOperators(r.name, base + [BucketMatcher]);
    if plan == RatePlan(item, service, interval, r) {
      assert CollectSelectors(plan.expr) == [plan.expr.expr.selector];
    } else if plan == ErrorRatioPlan(item, service, interval, r) {
      assert CollectSelectors(plan.expr.left) == [plan.expr.left.expr.selector];
      assert CollectSelectors(plan.expr.right) == [plan.expr.right.expr.selector];
    } else if plan == InFlightPlan(item, service, r) {
      assert CollectSelectors(plan.expr) == [plan.expr.expr.selector];
    } else {
      assert CollectSelectors(plan.expr.expr) == [plan.expr.expr.expr.selector];
    }
  }

  lemma {:induction false} BaseOperators(r: SignalReference, service: string, operation: string)
    ensures forall m <- BaseMatchersOf(r, service, operation) :: !m.op.OtherOp?
  {
    hide ValidOperationValue;
  }

  lemma {:induction false} SortedOperators(name: string, ms: seq<LabelMatcher>)
    requires forall m <- ms :: !m.op.OtherOp?
    ensures forall m <- SelectorWith(name, ms).matchers :: !m.op.OtherOp?
  {
    SameMembers(LabelLeq, ms);
  }

  // Every error ratio the planner emits lies between zero and one in every group.
  lemma {:induction false} PlannedRatioAtMostOne(
    item: Item, raw: string, plan: QueryPlan, rate: Series -> real, regex: (string, string) -> bool, key: seq<string>,
    store: seq<Series>)
    requires DistinctNames(item.metrics)
    requires plan in PlansOf(item, raw, DefaultRateInterval) && plan.kind == ErrorRatioKind
    requires forall series :: rate(series) >= 0.0
    ensures plan.expr.Divide? && plan.expr.left.Sum? && plan.expr.left.expr.Rate?
            && plan.expr.right.Sum? && plan.expr.right.expr.Rate?
    ensures var top := Total(rate, regex, plan.expr.left.expr.selector, plan.expr.left.groups, key, store);
            var bottom := Total(rate, regex, plan.expr.right.expr.selector, plan.expr.left.groups, key, store);
            0.0 <= top <= bottom && (bottom > 0.0 ==> 0.0 <= top / bottom <= 1.0)
  {
    hide PlansOf, PlanViolations, Total, KnownOperators, BuiltFrom;
    var service := ValidatedService(raw);
    PlannerIsSafe(item, raw, DefaultRateInterval);
    var r := EmittedIsBuilt(item, raw, DefaultRateInterval, plan);
    PlannedOperators(item, service, DefaultRateInterval, plan, r);
    RatioShape(item, service, DefaultRateInterval, plan, r);
    RatioAtMostOne(plan, item, service, plan.expr.left.groups, plan.expr.left.expr.selector,
        plan.expr.right.expr.selector,
                   plan.expr.left.expr.interval, plan.expr.right.expr.interval, rate, regex, key, store);
  }

  lemma {:induction false} RatioShape(
    item: Item, service: string, interval: string, plan: QueryPlan, r: SignalReference)
    requires BuiltFrom(item, service, interval, plan, r) && plan.kind == ErrorRatioKind
    ensures plan.expr.Divide? && plan.expr.left.Sum? && plan.expr.left.expr.Rate?
            && plan.expr.right.Sum? && plan.expr.right.expr.Rate? && plan.expr.left.groups == plan.expr.right.groups
  {
    hide ValidMetricName, SelectorWith, BaseMatchersOf, KindText, HasAttributes;
  }
}
