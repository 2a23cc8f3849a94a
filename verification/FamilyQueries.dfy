/** The queries built from a family (dashboard/overview/queries.go and, with other keys,
    dashboard/category/kafka.go) against the validator of OverviewValidate. */
module FamilyQueries {
  import opened Ordering
  import opened QueryTypes
  import opened QueryNames
  import opened SelectorDomain
  import opened Catalog
  import opened QueryValidate
  import opened QueryAcceptance
  import opened QueryPlanner
  import opened QueryPlannerSafety
  import opened Families
  import opened FamilyMeaning
  import opened OverviewValidate

  // ---- The queries ----

  function FamilyMatchers(f: Family, service: string, extra: seq<LabelMatcher>): seq<LabelMatcher>
  {
    (if service != "" && "service" in f.attributes then [ServiceMatcher(service)] else []) + extra
  }

  function FamilySelector(f: Family, service: string, extra: seq<LabelMatcher>): Selector
  {
    Selector(f.name, SortBy(MatcherLeq, FamilyMatchers(f, service, extra)))
  }

  function RateExpr(f: Family, service: string, interval: string): Expr
  {
    Sum(["operation"], Rate(FamilySelector(f, service, []), interval))
  }

  function ErrorRatioExpr(f: Family, service: string, interval: string): Expr
  {
    Divide(Sum(["operation"], Rate(FamilySelector(f, service, [StatusMatcher]), interval)),
           Sum(["operation"], Rate(FamilySelector(f, service, []), interval)))
  }

  function PercentileExpr(f: Family, service: string, interval: string, q: real): Expr
  {
    Quantile(q, Sum(["le"], Rate(FamilySelector(f, service, [BucketMatcher]), interval)))
  }

  function InFlightExpr(f: Family, service: string): Expr
  {
    Sum(if "operation" in f.attributes then ["operation"] else [], Select(FamilySelector(f, service, [])))
  }

  function TopFailingExpr(f: Family, service: string, interval: string): Expr
  {
    Sum(["operation"], Rate(FamilySelector(f, service, [StatusMatcher]), interval))
  }

  // A query some panel builder makes from the family, behind the family's capability.
  ghost predicate BuiltFromFamily(f: Family, service: string, interval: string, plan: QueryPlan)
  {
    && plan.planIDs == f.planIDs
    && match plan.kind
       case RateKind => f.capabilities.rate && plan.expr == RateExpr(f, service, interval)
       case ErrorRatioKind => f.capabilities.errorRatio && plan.expr == ErrorRatioExpr(f, service, interval)
       case PercentileKind =>
         f.capabilities.percentiles
             && exists q <- FixedQuantiles :: plan.expr == PercentileExpr(f, service, interval, q)
       case InFlightKind => f.capabilities.inFlight && plan.expr == InFlightExpr(f, service)
       case TopFailingKind => f.capabilities.errorRatio && plan.expr == TopFailingExpr(f, service, interval)
       case BreakdownKind => false
  }

  // ---- The items of a family declare its metric ----

  // What the catalog promises of each item: distinct metric names, sorted labels.
  ghost predicate OrderlyItem(item: Item)
  {
    DistinctNames(item.metrics) && forall m <- item.metrics :: m.attributes == Schema(m)
  }

  ghost predicate GoodFamily(items: seq<Item>, f: Family)
  {
    && ListsExactly(items, f) && f.items != [] && ValidMetricName(f.name)
    && f.capabilities == CapabilitiesFrom(f.typ, f.attributes)
  }

  lemma {:induction false} ItemDeclares(item: Item, m: SignalReference)
    requires m in item.metrics && DistinctNames(item.metrics)
    ensures ItemType(item, m.name) == m.typ && ItemLabels(item, m.name) == m.attributes
  {
    var k :| 0 <= k < |item.metrics| && item.metrics[k] == m;
    LastDeclarationRules(item.metrics, k);
  }

  lemma {:induction false} FamilyItemDeclares(items: seq<Item>, f: Family, item: Item) returns (m: SignalReference)
    requires ListsExactly(items, f) && item in f.items && forall x <- items :: OrderlyItem(x)
    ensures m in item.metrics && m.name == f.name && m.planID in f.planIDs
    ensures ItemType(item, f.name) == f.typ && ItemLabels(item, f.name) == f.attributes
  {
    hide ItemType, ItemLabels, DistinctNames, Schema, ValidMetricName;
    var e :| Declares(items, e) && Groups(f, e.metric) && e.item == item;
    m := e.metric;
    assert OrderlyItem(item);
    ItemDeclares(item, m);
  }

  lemma {:induction false} FamilyProvable(items: seq<Item>, f: Family, plan: QueryPlan, s: Selector)
    requires GoodFamily(items, f) && f.typ != "" && forall x <- items :: OrderlyItem(x)
    requires plan.planIDs == f.planIDs && s.metricName == f.name && forall m <- s.matchers :: m.name != "operation"
    ensures Provable(plan, f.items, s)
  {
    hide ItemType, ItemLabels, ListsExactly, ValidMetricName, CapabilitiesFrom, OrderlyItem;
    var m := FamilyItemDeclares(items, f, f.items[0]);
    forall item | item in f.items ensures ItemType(item, f.name) == f.typ && ItemLabels(item, f.name) == f.attributes {
      var _ := FamilyItemDeclares(items, f, item);
    }
    assert (m.planID, f.name) in NamedIDs(f.items);
    assert Covered(plan, f.items, f.name);
  }

  lemma {:induction false} FamilyIDsKnown(items: seq<Item>, f: Family)
    requires ListsExactly(items, f)
    ensures forall id <- f.planIDs :: id in KnownIDs(f.items)
  {
    hide ValidMetricName, Groups;
    forall id | id in f.planIDs ensures id in KnownIDs(f.items) {
      var e :| Declares(items, e) && Groups(f, e.metric) && e.metric.planID == id;
      assert e.item in f.items;
    }
  }

  // ---- The trees obey the rules ----

  lemma {:induction false} FamilySelectorFine(c: Context, status: bool, f: Family, extra: seq<LabelMatcher>)
    requires c.service == "" || ValidServiceValue(c.service)
    requires ValidMetricName(f.name) && TypeOf(c, f.name) != "" && LabelsOf(c, f.name) == f.attributes
    requires forall m <- extra :: PlannedMatcher(c, status, m) && (m.name == "le" || m.name in f.attributes)
    requires forall m <- extra :: m.name != "operation"
    ensures SelectorFine(c, status, FamilySelector(f, c.service, extra))
    ensures forall m <- FamilySelector(f, c.service, extra).matchers ::
              PlannedMatcher(c, status, m) && m.name != "operation"
  {
    hide ValidMetricName, TypeOf, LabelsOf, SelectorFine, ValidServiceValue, MatcherLeq;
    var ms := FamilyMatchers(f, c.service, extra);
    SameMembers(MatcherLeq, ms);
    forall m | m in ms ensures PlannedMatcher(c, status, m) && (m.name == "le" || m.name in f.attributes)
        && m.name != "operation" {
      if m !in extra { assert m == ServiceMatcher(c.service); }
    }
    PlannedFine(c, status, FamilySelector(f, c.service, extra));
  }

  lemma {:induction false} RatedFine(
    c: Context, groups: seq<string>, s: Selector, interval: string, status: bool, depth: nat)
    requires depth <= 7 && SelectorFine(c, status, s) && forall g <- groups :: InVocabulary(g)
    ensures EverySiteFine(c, Sum(groups, Rate(s, interval)), status, depth) <==>
              TypeOf(c, s.metricName) != "gauge" && interval == DefaultRateInterval
  {
    hide SelectorFine, EverySiteFine, TypeOf;
    SitesTogether(c, Sum(groups, Rate(s, interval)), status, depth);
    SitesTogether(c, Rate(s, interval), status, depth + 1);
  }

  // A context that says of the family's metric what the family says.
  ghost predicate Knows(c: Context, f: Family)
  {
    && (c.service == "" || ValidServiceValue(c.service))
    && ValidMetricName(f.name) && TypeOf(c, f.name) == f.typ && LabelsOf(c, f.name) == f.attributes
    && f.capabilities == CapabilitiesFrom(f.typ, f.attributes)
  }

  lemma {:induction false} RatedFamilyFine(
    c: Context, f: Family, interval: string, groups: seq<string>, extra: seq<LabelMatcher>, status: bool, depth: nat)
    requires Knows(c, f) && f.typ != "" && f.typ != "gauge" && depth <= 7
    requires forall g <- groups :: InVocabulary(g)
    requires forall m <- extra ::
               PlannedMatcher(c, status, m) && (m.name == "le" || m.name in f.attributes) && m.name != "operation"
    ensures EverySiteFine(c, Sum(groups, Rate(FamilySelector(f, c.service, extra), interval)), status, depth) <==>
              interval == DefaultRateInterval
  {
    hide ValidMetricName, TypeOf, LabelsOf, SelectorFine, PlannedMatcher, EverySiteFine, ValidServiceValue,
        CapabilitiesFrom;
    FamilySelectorFine(c, status, f, extra);
    RatedFine(c, groups, FamilySelector(f, c.service, extra), interval, status, depth);
  }

  lemma {:induction false} InFlightFine(c: Context, f: Family)
    requires Knows(c, f) && f.typ != ""
    ensures EverySiteFine(c, InFlightExpr(f, c.service), false, 0)
  {
    hide ValidMetricName, TypeOf, LabelsOf, SelectorFine, PlannedMatcher, EverySiteFine, FamilySelector;
    var s := FamilySelector(f, c.service, []);
    FamilySelectorFine(c, false, f, []);
    SitesTogether(c, InFlightExpr(f, c.service), false, 0);
    SitesTogether(c, Select(s), false, 1);
  }

  lemma {:induction false} SortedNonStatus(ms: seq<LabelMatcher>)
    ensures multiset(NonStatus(SortBy(MatcherLeq, ms))) == multiset(NonStatus(ms))
  {
    hide MatcherLeq, NonStatus;
    forall m ensures multiset(NonStatus(SortBy(MatcherLeq, ms)))[m] == multiset(NonStatus(ms))[m] {
      NonStatusCount(SortBy(MatcherLeq, ms), m);
      NonStatusCount(ms, m);
    }
  }

  lemma {:induction false} FamilyScope(f: Family, service: string)
    ensures ScopeOf(FamilySelector(f, service, [StatusMatcher])) == ScopeOf(FamilySelector(f, service, []))
  {
    hide MatcherLeq, NonStatus, SortBy;
    var base := FamilyMatchers(f, service, []);
    assert FamilyMatchers(f, service, [StatusMatcher]) == base + [StatusMatcher];
    NonStatusSnoc(base, StatusMatcher);
    SortedNonStatus(base + [StatusMatcher]);
    SortedNonStatus(base);
  }

  lemma {:induction false} ErrorRatioFine(c: Context, f: Family, interval: string)
    requires Knows(c, f) && f.capabilities.errorRatio && !c.inFlight && c.errorRatio
    ensures EverySiteFine(c, ErrorRatioExpr(f, c.service, interval), false, 0) <==> interval == DefaultRateInterval
  {
    hide ValidMetricName, TypeOf, LabelsOf, EverySiteFine, FamilySelector, ValidServiceValue, ScopeOf, SameDomain,
        ControlledSelector, SelectorFine;
    var top, bottom := FamilySelector(f, c.service, [StatusMatcher]), FamilySelector(f, c.service, []);
    var e := ErrorRatioExpr(f, c.service, interval);
    RatedFamilyFine(c, f, interval, ["operation"], [StatusMatcher], true, 1);
    RatedFamilyFine(c, f, interval, ["operation"], [], false, 1);
    FamilySelectorFine(c, true, f, [StatusMatcher]);
    FamilySelectorFine(c, false, f, []);
    FamilyScope(f, c.service);
    SelectorNames(f, c.service);
    PlannedControlled(c, true, top);
    PlannedControlled(c, false, bottom);
    assert Apply(ScopeOf, [top]) == Apply(ScopeOf, [bottom]);
    SameDomainExactlyWhen([top], [bottom]);
    assert CollectSelectors(e.left) == [top];
    assert CollectSelectors(e.right) == [bottom];
    SitesTogether(c, e, false, 0);
  }

  lemma {:induction false} SelectorNames(f: Family, service: string)
    ensures forall extra :: FamilySelector(f, service, extra).metricName == f.name
  {
  }

  lemma {:induction false} PercentileFine(c: Context, f: Family, interval: string, q: real)
    requires Knows(c, f) && f.capabilities.percentiles && q in FixedQuantiles
    ensures EverySiteFine(c, PercentileExpr(f, c.service, interval, q), false, 0) <==> interval == DefaultRateInterval
  {
    hide ValidMetricName, TypeOf, LabelsOf, EverySiteFine, FamilySelector, ValidServiceValue;
    RatedFamilyFine(c, f, interval, ["le"], [BucketMatcher], false, 1);
    SitesTogether(c, PercentileExpr(f, c.service, interval, q), false, 0);
  }

  // ---- Every family query ----

  lemma {:induction false} BuiltTree(f: Family, c: Context, interval: string, plan: QueryPlan)
    requires Knows(c, f) && BuiltFromFamily(f, c.service, interval, plan)
    requires c.errorRatio == (plan.kind == ErrorRatioKind) && c.inFlight == (plan.kind == InFlightKind)
    ensures f.typ != ""
    ensures EverySiteFine(c, plan.expr, plan.kind == TopFailingKind, 0) <==>
              plan.kind == InFlightKind || interval == DefaultRateInterval
  {
    hide ValidMetricName, TypeOf, LabelsOf, EverySiteFine, FamilySelector, ValidServiceValue;
    match plan.kind
    case RateKind => RatedFamilyFine(c, f, interval, ["operation"], [], false, 0);
    case ErrorRatioKind => ErrorRatioFine(c, f, interval);
    case PercentileKind =>
      var q :| q in FixedQuantiles && plan.expr == PercentileExpr(f, c.service, interval, q);
      PercentileFine(c, f, interval, q);
    case InFlightKind => InFlightFine(c, f);
    case TopFailingKind => RatedFamilyFine(c, f, interval, ["operation"], [StatusMatcher], true, 0);
  }

  lemma {:induction false} BuiltSelectors(f: Family, service: string, interval: string, plan: QueryPlan)
    requires BuiltFromFamily(f, service, interval, plan)
    ensures CollectSelectors(plan.expr) != [] && !plan.expr.Select?
    ensures forall s <- CollectSelectors(plan.expr) ::
              s.metricName == f.name && forall m <- s.matchers :: m.name != "operation"
  {
    hide FamilySelector;
    NoOperation(f, service, []);
    NoOperation(f, service, [StatusMatcher]);
    NoOperation(f, service, [BucketMatcher]);
    match plan.kind
    case RateKind => assert CollectSelectors(plan.expr) == [FamilySelector(f, service, [])];
    case ErrorRatioKind =>
      assert CollectSelectors(plan.expr.left) == [FamilySelector(f, service, [StatusMatcher])];
      assert CollectSelectors(plan.expr.right) == [FamilySelector(f, service, [])];
    case PercentileKind => assert CollectSelectors(plan.expr.expr) == [FamilySelector(f, service, [BucketMatcher])];
    case InFlightKind => assert CollectSelectors(plan.expr) == [FamilySelector(f, service, [])];
    case TopFailingKind => assert CollectSelectors(plan.expr) == [FamilySelector(f, service, [StatusMatcher])];
  }

  lemma {:induction false} NoOperation(f: Family, service: string, extra: seq<LabelMatcher>)
    requires forall m <- extra :: m.name != "operation"
    ensures FamilySelector(f, service, extra).metricName == f.name
    ensures forall m <- FamilySelector(f, service, extra).matchers :: m.name != "operation"
  {
    SameMembers(MatcherLeq, FamilyMatchers(f, service, extra));
  }

  // Every query a panel builder makes from a family of the catalog passes the validator against
  // that family's items, with the validated service name and the fixed rate interval; with
  // another interval exactly the in-flight queries do.
  lemma {:induction false} FamilyQueriesPass(
    items: seq<Item>, families: seq<Family>, f: Family, raw: string, interval: string, plan: QueryPlan)
    requires PlainCatalog(items) && forall item <- items :: OrderlyItem(item)
    requires FamiliesOf(Table(Entries(items)), families) && f in families
    requires BuiltFromFamily(f, ValidatedService(raw), interval, plan)
    ensures OverviewViolations(plan, f.items, ValidatedService(raw)) == [] <==>
              plan.kind == InFlightKind || interval == DefaultRateInterval
  {
    hide PlainCatalog, OrderlyItem, FamiliesOf, BuiltFromFamily, OverviewViolations, ListsExactly, Provable,
        EverySiteFine;
    hide ValidMetricName, CapabilitiesFrom, CollectSelectors, Knows;
    var service := ValidatedService(raw);
    FamiliesPartition(items, families);
    OverviewAcceptedExactlyWhen(plan, f.items, service);
    BuiltSelectors(f, service, interval, plan);
    var c := FirstContext(plan, f.items[0], service);
    FirstItemKnows(items, f, plan, service);
    BuiltTree(f, c, interval, plan);
    forall s | s in CollectSelectors(plan.expr) ensures Provable(plan, f.items, s) {
      BuiltIDs(f, service, interval, plan);
      FamilyProvable(items, f, plan, s);
    }
    BuiltIDs(f, service, interval, plan);
    FamilyIDsKnown(items, f);
  }

  lemma {:induction false} BuiltIDs(f: Family, service: string, interval: string, plan: QueryPlan)
    requires BuiltFromFamily(f, service, interval, plan)
    ensures plan.planIDs == f.planIDs
  {
  }

  lemma {:induction false} FirstItemKnows(items: seq<Item>, f: Family, plan: QueryPlan, service: string)
    requires GoodFamily(items, f) && forall item <- items :: OrderlyItem(item)
    requires service == "" || ValidServiceValue(service)
    ensures Knows(FirstContext(plan, f.items[0], service), f)
  {
    hide OrderlyItem, ListsExactly, ValidMetricName, CapabilitiesFrom, TypesOf, SchemasOf;
    var _ := FamilyItemDeclares(items, f, f.items[0]);
  }
}
