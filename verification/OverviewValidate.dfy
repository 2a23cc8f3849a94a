/** dashboard/query/overview_validate.go: validating a query against every item it aggregates. */
module OverviewValidate {
  import opened QueryTypes
  import opened QueryNames
  import opened SelectorDomain
  import opened Catalog
  import opened QueryValidate
  import opened QueryAcceptance

  // ---- The violations, in order ----

  function ItemType(item: Item, name: string): string
  {
    if name in TypesOf(item.metrics) then TypesOf(item.metrics)[name] else ""
  }

  function ItemLabels(item: Item, name: string): seq<string>
  {
    if name in SchemasOf(item.metrics) then SchemasOf(item.metrics)[name] else []
  }

  function KnownIDs(items: seq<Item>): set<string>
  {
    set item <- items, m <- item.metrics :: m.planID
  }

  // Pairs of a plan ID and a metric name it stands for.
  function NamedIDs(items: seq<Item>): set<(string, string)>
  {
    set item <- items, m <- item.metrics :: (m.planID, m.name)
  }

  predicate Agreed(items: seq<Item>, name: string)
    requires items != []
  {
    forall item <- items :: ItemType(item, name) == ItemType(items[0], name)
        && ItemLabels(item, name) == ItemLabels(items[0], name)
  }

  predicate Covered(plan: QueryPlan, items: seq<Item>, name: string)
  {
    exists id <- plan.planIDs :: (id, name) in NamedIDs(items)
  }

  function UnknownIDs(ids: seq<string>, items: seq<Item>): seq<Violation>
  {
    if ids == [] then []
    else UnknownIDs(ids[..|ids| - 1], items) + Flag(ids[|ids| - 1] !in KnownIDs(items), "plan_ids", UndeclaredPlanID)
  }

  function OperationFilters(ms: seq<LabelMatcher>): seq<Violation>
  {
    if ms == [] then []
    else OperationFilters(ms[..|ms| - 1])
         + Flag(ms[|ms| - 1].name == "operation", "expr.selectors.matchers.operation", OperationFiltered)
  }

  datatype Merged = Merged(types: map<string, string>, labels: map<string, seq<string>>, violations: seq<Violation>)

  function MergeSelector(plan: QueryPlan, items: seq<Item>, before: Merged, s: Selector): Merged
    requires items != []
  {
    var name := s.metricName;
    if !ValidMetricName(name) then
      before.(violations := before.violations + [Violation("expr.selectors.metric", MetricNameUncontrolled)])
    else if ItemType(items[0], name) == "" then
      before.(violations := before.violations + [Violation("expr.selectors.metric", MetricUndeclared)])
    else
      Merged(before.types[name := ItemType(items[0], name)], before.labels[name := ItemLabels(items[0], name)],
             before.violations + Flag(!Agreed(items, name), "expr.selectors.metric", SchemaDiffers)
             + Flag(!Covered(plan, items, name), "plan_ids", PlanIDsDoNotCover) + OperationFilters(s.matchers))
  }

  function MergeSelectors(plan: QueryPlan, items: seq<Item>, selectors: seq<Selector>): Merged
    requires items != []
  {
    if selectors == [] then Merged(map[], map[], [])
    else MergeSelector(plan, items, MergeSelectors(plan, items, selectors[..|selectors| - 1]),
        selectors[|selectors| - 1])
  }

  function MergedContext(plan: QueryPlan, merged: Merged, service: string): Context
  {
    Context(merged.types, merged.labels, "", service, plan.kind == ErrorRatioKind, plan.kind == InFlightKind,
            plan.kind == TopFailingKind)
  }

  function OverviewViolations(plan: QueryPlan, items: seq<Item>, service: string): seq<Violation>
  {
    if items == [] then [Violation("expr", NoItems)]
    else
      var selectors := CollectSelectors(plan.expr);
      var merged := MergeSelectors(plan, items, selectors);
      UnknownIDs(plan.planIDs, items) + Flag(selectors == [], "expr", NoSelector) + merged.violations
      + Flag(plan.expr.Select?, "expr", BareSelector)
      + ExprViolations(MergedContext(plan, merged, service), plan.expr, "expr", 0)
  }

  // ---- The validator as written ----

  datatype Declarations = Declarations(types: map<string, string>, labels: map<string, seq<string>>)

  function DeclarationsOf(item: Item): Declarations { Declarations(TypesOf(item.metrics), SchemasOf(item.metrics)) }

  lemma {:induction false} IDsSnoc(items: seq<Item>, item: Item)
    ensures KnownIDs(items + [item]) == KnownIDs(items) + PlanIDsOf(item.metrics)
    ensures NamedIDs(items + [item]) == NamedIDs(items) + set m <- item.metrics :: (m.planID, m.name)
  {
    var both := items + [item];
    assert forall x :: x in both <==> x in items || x == item;
  }

  method ReadItems(items: seq<Item>)
    returns (declared: seq<Declarations>, ids: set<string>, named: set<(string, string)>)
    ensures |declared| == |items| && forall i :: 0 <= i < |items| ==> declared[i] == DeclarationsOf(items[i])
    ensures ids == KnownIDs(items) && named == NamedIDs(items)
  {
    declared, ids, named := [], {}, {};
    for i := 0 to |items|
      invariant |declared| == i && forall j :: 0 <= j < i ==> declared[j] == DeclarationsOf(items[j])
      invariant ids == KnownIDs(items[..i]) && named == NamedIDs(items[..i])
    {
      hide KnownIDs, NamedIDs, TypesOf, SchemasOf, PlanIDsOf;
      var types, labels, planIDs := ReadMetrics(items[i].metrics);
      assert items[..i + 1] == items[..i] + [items[i]];
      IDsSnoc(items[..i], items[i]);
      declared := declared + [Declarations(types, labels)];
      ids := ids + planIDs;
      named := named + set m <- items[i].metrics :: (m.planID, m.name);
    }
    assert items[..|items|] == items;
  }

  method CheckSchemas(declared: seq<Declarations>, name: string, ghost items: seq<Item>) returns (agreed: bool)
    requires |declared| == |items| > 0 && forall i :: 0 <= i < |items| ==> declared[i] == DeclarationsOf(items[i])
    ensures agreed == Agreed(items, name)
  {
    hide TypesOf, SchemasOf;
    var typ := if name in declared[0].types then declared[0].types[name] else "";
    var schema := if name in declared[0].labels then declared[0].labels[name] else [];
    for i := 1 to |declared|
      invariant forall j :: 0 <= j < i ==>
                  ItemType(items[j], name) == ItemType(items[0], name)
                      && ItemLabels(items[j], name) == ItemLabels(items[0], name)
    {
      var other := if name in declared[i].types then declared[i].types[name] else "";
      var labels := if name in declared[i].labels then declared[i].labels[name] else [];
      if other != typ || labels != schema {
        assert items[i] in items;
        return false;
      }
    }
    return true;
  }

  method CheckCovered(plan: QueryPlan, named: set<(string, string)>, name: string, ghost items: seq<Item>)
    returns (covered: bool)
    requires named == NamedIDs(items)
    ensures covered == Covered(plan, items, name)
  {
    for i := 0 to |plan.planIDs|
      invariant forall j :: 0 <= j < i ==> (plan.planIDs[j], name) !in named
    {
      if (plan.planIDs[i], name) in named { return true; }
    }
    return false;
  }

  method CheckOperations(report: Report, ms: seq<LabelMatcher>)
    modifies report
    ensures report.violations == old(report.violations) + OperationFilters(ms)
  {
    for i := 0 to |ms|
      invariant report.violations == old(report.violations) + OperationFilters(ms[..i])
    {
      assert ms[..i + 1][..i] == ms[..i];
      report.Check(ms[i].name == "operation", "expr.selectors.matchers.operation", OperationFiltered);
    }
    assert ms[..|ms|] == ms;
  }

  // Three flags after what was there.
  lemma {:induction false} ThreeMore<T>(x: seq<T>, y: seq<T>, a: seq<T>, b: seq<T>, c: seq<T>)
    ensures x + y + a + b + c == x + (y + a + b + c)
  {
  }

  method CheckSelector(
    report: Report, plan: QueryPlan, ghost items: seq<Item>, declared: seq<Declarations>,
    named: set<(string, string)>, types: map<string, string>, labels: map<string, seq<string>>, s: Selector,
    ghost start: seq<Violation>, ghost before: Merged)
    returns (newTypes: map<string, string>, newLabels: map<string, seq<string>>)
    requires |declared| == |items| > 0 && forall i :: 0 <= i < |items| ==> declared[i] == DeclarationsOf(items[i])
    requires named == NamedIDs(items) && before.types == types && before.labels == labels
    requires report.violations == start + before.violations
    modifies report
    ensures var after := MergeSelector(plan, items, before, s);
            newTypes == after.types && newLabels == after.labels && report.violations == start + after.violations
  {
    hide TypesOf, SchemasOf, Agreed, Covered, OperationFilters, ValidMetricName, Flag;
    newTypes, newLabels := types, labels;
    var name := s.metricName;
    if !ValidMetricName(name) {
      report.violations := report.violations + [Violation("expr.selectors.metric", MetricNameUncontrolled)];
      return;
    }
    var schema := if name in declared[0].labels then declared[0].labels[name] else [];
    var typ := if name in declared[0].types then declared[0].types[name] else "";
    if typ == "" {
      report.violations := report.violations + [Violation("expr.selectors.metric", MetricUndeclared)];
      return;
    }
    var agreed := CheckSchemas(declared, name, items);
    report.Check(!agreed, "expr.selectors.metric", SchemaDiffers);
    newTypes, newLabels := types[name := typ], labels[name := schema];
    var covered := CheckCovered(plan, named, name, items);
    report.Check(!covered, "plan_ids", PlanIDsDoNotCover);
    CheckOperations(report, s.matchers);
    ThreeMore(start, before.violations, Flag(!agreed, "expr.selectors.metric", SchemaDiffers),
              Flag(!covered, "plan_ids", PlanIDsDoNotCover), OperationFilters(s.matchers));
  }

  method ValidateOverviewPlan(plan: QueryPlan, items: seq<Item>, service: string) returns (violations: seq<Violation>)
    ensures violations == OverviewViolations(plan, items, service)
  {
    hide ExprViolations, KnownIDs, NamedIDs, TypesOf, SchemasOf, MergeSelector, CollectSelectors, Flag, DeclarationsOf;
    if |items| == 0 { return [Violation("expr", NoItems)]; }
    var declared, ids, named := ReadItems(items);
    var report := new Report();
    for i := 0 to |plan.planIDs|
      invariant report.violations == UnknownIDs(plan.planIDs[..i], items)
    {
      assert plan.planIDs[..i + 1][..i] == plan.planIDs[..i];
      report.Check(plan.planIDs[i] !in ids, "plan_ids", UndeclaredPlanID);
    }
    assert plan.planIDs[..|plan.planIDs|] == plan.planIDs;
    var selectors := CollectSelectors(plan.expr);
    report.Check(selectors == [], "expr", NoSelector);
    ghost var start := report.violations;
    var types: map<string, string>, labels: map<string, seq<string>> := map[], map[];
    for i := 0 to |selectors|
      invariant var merged := MergeSelectors(plan, items, selectors[..i]);
                types == merged.types && labels == merged.labels && report.violations == start + merged.violations
    {
      assert selectors[..i + 1][..i] == selectors[..i];
      types, labels := CheckSelector(report, plan, items, declared, named, types, labels, selectors[i], start,
                                     MergeSelectors(plan, items, selectors[..i]));
    }
    assert selectors[..|selectors|] == selectors;
    var context := Context(types, labels, "", service, plan.kind == ErrorRatioKind, plan.kind == InFlightKind,
                           plan.kind == TopFailingKind);
    report.Check(plan.expr.Select?, "expr", BareSelector);
    report.ValidateExpression(context, plan.expr, "expr", 0);
    return report.violations;
  }

  // ---- What is accepted ----

  // The rules of one item, read from its last declarations, with no operation to match.
  function FirstContext(plan: QueryPlan, item: Item, service: string): Context
  {
    Context(TypesOf(item.metrics), SchemasOf(item.metrics), "", service, plan.kind == ErrorRatioKind,
            plan.kind == InFlightKind, plan.kind == TopFailingKind)
  }

  // Every item declares the metric, with one type and one label list, and a plan ID stands for it.
  predicate Provable(plan: QueryPlan, items: seq<Item>, s: Selector)
    requires items != []
  {
    && ValidMetricName(s.metricName) && ItemType(items[0], s.metricName) != ""
    && Agreed(items, s.metricName) && Covered(plan, items, s.metricName)
    && forall m <- s.matchers :: m.name != "operation"
  }

  ghost predicate OverviewAcceptable(plan: QueryPlan, items: seq<Item>, service: string)
  {
    && items != []
    && (forall id <- plan.planIDs :: id in KnownIDs(items))
    && CollectSelectors(plan.expr) != [] && !plan.expr.Select?
    && (forall s <- CollectSelectors(plan.expr) :: Provable(plan, items, s))
    && EverySiteFine(FirstContext(plan, items[0], service), plan.expr, plan.kind == TopFailingKind, 0)
  }

  lemma {:induction false} UnknownFlags(ids: seq<string>, items: seq<Item>)
    ensures UnknownIDs(ids, items) == [] <==> forall id <- ids :: id in KnownIDs(items)
  {
    hide KnownIDs;
    if ids != [] {
      var rest, last := ids[..|ids| - 1], ids[|ids| - 1];
      UnknownFlags(rest, items);
      assert ids == rest + [last];
      assert forall id :: id in ids <==> id in rest || id == last;
    }
  }

  lemma {:induction false} OperationFlags(ms: seq<LabelMatcher>)
    ensures OperationFilters(ms) == [] <==> forall m <- ms :: m.name != "operation"
  {
    if ms != [] {
      var rest, last := ms[..|ms| - 1], ms[|ms| - 1];
      OperationFlags(rest);
      assert ms == rest + [last];
      assert forall m :: m in ms <==> m in rest || m == last;
    }
  }

  lemma {:induction false} MergeFlags(plan: QueryPlan, items: seq<Item>, before: Merged, s: Selector)
    requires items != []
    ensures var after := MergeSelector(plan, items, before, s);
            && (after.violations == [] <==> before.violations == [] && Provable(plan, items, s))
            && (Provable(plan, items, s) ==>
                  && after.types == before.types[s.metricName := ItemType(items[0], s.metricName)]
                  && after.labels == before.labels[s.metricName := ItemLabels(items[0], s.metricName)])
  {
    hide ValidMetricName, ItemType, ItemLabels, Agreed, Covered;
    OperationFlags(s.matchers);
  }

  // When nothing is found, the merged maps say of the selected names what the first item says.
  lemma {:induction false} MergeMeans(plan: QueryPlan, items: seq<Item>, selectors: seq<Selector>)
    requires items != []
    ensures var merged := MergeSelectors(plan, items, selectors);
            && (merged.violations == [] <==> forall s <- selectors :: Provable(plan, items, s))
            && (merged.violations == [] ==> forall s <- selectors ::
                  && s.metricName in merged.types && merged.types[s.metricName] == ItemType(items[0], s.metricName)
                  && s.metricName in merged.labels && merged.labels[s.metricName] == ItemLabels(items[0], s.metricName))
  {
    hide Provable, ItemType, ItemLabels, MergeSelector;
    if selectors != [] {
      var rest, last := selectors[..|selectors| - 1], selectors[|selectors| - 1];
      MergeMeans(plan, items, rest);
      MergeFlags(plan, items, MergeSelectors(plan, items, rest), last);
      assert selectors == rest + [last];
      assert forall s :: s in selectors <==> s in rest || s == last;
    }
  }

  // Contexts that agree on the selected metrics accept the same trees.
  lemma {:induction false} ContextsAgree(c: Context, d: Context, e: Expr, status: bool, depth: nat)
    requires c.operation == d.operation && c.service == d.service && c.errorRatio == d.errorRatio
        && c.inFlight == d.inFlight
    requires forall s <- CollectSelectors(e) ::
               TypeOf(c, s.metricName) == TypeOf(d, s.metricName)
                   && LabelsOf(c, s.metricName) == LabelsOf(d, s.metricName)
    ensures EverySiteFine(c, e, status, depth) <==> EverySiteFine(d, e, status, depth)
    decreases e
  {
    hide EverySiteFine, TypeOf, LabelsOf, AllowedMatcher, ValidMetricName, SameDomain;
    SitesTogether(c, e, status, depth);
    SitesTogether(d, e, status, depth);
    match e
    case Sum(_, inner) => ContextsAgree(c, d, inner, status, depth + 1);
    case Quantile(_, inner) => ContextsAgree(c, d, inner, status, depth + 1);
    case Divide(l, r) =>
      ContextsAgree(c, d, l, status || c.errorRatio, depth + 1);
      ContextsAgree(c, d, r, status, depth + 1);
    case _ => NodesAgree(c, d, e, status, depth);
  }

  lemma {:induction false} NodesAgree(c: Context, d: Context, e: Expr, status: bool, depth: nat)
    requires e.Select? || e.Rate? || e.Scalar? || e.NoExpr?
    requires c.operation == d.operation && c.service == d.service && c.inFlight == d.inFlight
    requires forall s <- CollectSelectors(e) ::
               TypeOf(c, s.metricName) == TypeOf(d, s.metricName)
                   && LabelsOf(c, s.metricName) == LabelsOf(d, s.metricName)
    ensures SiteFine(c, Site(e, status, depth)) <==> SiteFine(d, Site(e, status, depth))
  {
    hide TypeOf, LabelsOf, AllowedMatcher, ValidMetricName;
    if e.Select? || e.Rate? {
      var s := e.selector;
      assert s in CollectSelectors(e);
      forall m | m in s.matchers
        ensures MatcherFine(c, status, s.metricName, m) <==> MatcherFine(d, status, s.metricName, m)
      {
      }
    }
  }

  // An overview query is accepted exactly when every selected metric is provable from every
  // item and the tree obeys the rules of any single item.
  lemma {:induction false} OverviewAcceptedExactlyWhen(plan: QueryPlan, items: seq<Item>, service: string)
    ensures OverviewViolations(plan, items, service) == [] <==> OverviewAcceptable(plan, items, service)
  {
    hide ExprViolations, EverySiteFine, KnownIDs, Provable, CollectSelectors, TypesOf, SchemasOf;
    if items != [] {
      var selectors := CollectSelectors(plan.expr);
      var merged := MergeSelectors(plan, items, selectors);
      UnknownFlags(plan.planIDs, items);
      MergeMeans(plan, items, selectors);
      NothingFoundMeans(MergedContext(plan, merged, service), plan.expr, "expr", 0);
      if merged.violations == [] {
        ContextsAgree(MergedContext(plan, merged, service), FirstContext(plan, items[0], service), plan.expr,
                      plan.kind == TopFailingKind, 0);
      }
    }
  }
}
