/** What dashboard/query/overview_validate.go reports of a query over several items, told from their metrics. */
module OverviewReports {
  import opened QueryTypes
  import opened QueryNames
  import opened Catalog
  import opened QueryValidate
  import opened QueryAcceptance
  import opened QueryViolations
  import opened OverviewValidate

  // ---- Several items at once ----

  ghost predicate DeclaresAs(metrics: seq<SignalReference>, name: string, typ: string, labels: seq<string>)
  {
    exists i: nat :: LastNamed(metrics, name, i) && metrics[i].typ == typ && metrics[i].attributes == labels
  }

  ghost predicate AllDeclareAs(items: seq<Item>, name: string, typ: string, labels: seq<string>)
  {
    forall item <- items :: DeclaresAs(item.metrics, name, typ, labels)
  }

  // Every item declares the metric, all of them alike, and one of its plan IDs is among the query's.
  ghost predicate DeclaredAlike(plan: QueryPlan, items: seq<Item>, s: Selector)
  {
    && ValidMetricName(s.metricName)
    && (exists typ, labels :: typ != "" && AllDeclareAs(items, s.metricName, typ, labels))
    && (exists item <- items, m <- item.metrics :: m.name == s.metricName && m.planID in plan.planIDs)
    && forall m <- s.matchers :: m.name != "operation"
  }

  lemma {:induction false} ItemDeclares(item: Item, name: string)
    ensures ItemType(item, name) != "" ==> DeclaresAs(item.metrics, name, ItemType(item, name), ItemLabels(item, name))
    ensures forall typ, labels :: DeclaresAs(item.metrics, name, typ, labels) ==>
              ItemType(item, name) == typ && ItemLabels(item, name) == labels
  {
    hide TypesOf, SchemasOf;
    DeclaredNames(item.metrics, name);
    if name in TypesOf(item.metrics) {
      SomeLast(item.metrics, name);
      var i: nat :| LastNamed(item.metrics, name, i);
      LastDeclarationRules(item.metrics, i);
    }
    forall typ, labels | DeclaresAs(item.metrics, name, typ, labels)
      ensures ItemType(item, name) == typ && ItemLabels(item, name) == labels
    {
      var i: nat :| LastNamed(item.metrics, name, i) && item.metrics[i].typ == typ
                    && item.metrics[i].attributes == labels;
      LastDeclarationRules(item.metrics, i);
    }
  }

  lemma {:induction false} ProvableMeans(plan: QueryPlan, items: seq<Item>, s: Selector)
    requires items != []
    ensures Provable(plan, items, s) <==> DeclaredAlike(plan, items, s)
  {
    hide ItemType, ItemLabels, DeclaresAs, ValidMetricName;
    var name := s.metricName;
    assert items[0] in items;
    forall item { ItemDeclares(item, name); }
    if Provable(plan, items, s) {
      var typ, labels := ItemType(items[0], name), ItemLabels(items[0], name);
      assert AllDeclareAs(items, name, typ, labels);
    }
  }

  // A query over several items is accepted exactly when it is no bare selector, its plan IDs are the items', it
  // has selectors, each over a metric that all items declare alike, and every node obeys the rules for its place.
  lemma {:induction false} OverviewAcceptedMeans(plan: QueryPlan, items: seq<Item>, service: string)
    ensures OverviewViolations(plan, items, service) == [] <==>
              && items != [] && !plan.expr.Select?
              && (forall id <- plan.planIDs :: exists item <- items, m <- item.metrics :: m.planID == id)
              && CollectSelectors(plan.expr) != []
              && (forall s <- CollectSelectors(plan.expr) :: DeclaredAlike(plan, items, s))
              && EverySiteFine(FirstContext(plan, items[0], service), plan.expr, plan.kind == TopFailingKind, 0)
  {
    hide OverviewViolations, DeclaredAlike, Provable, EverySiteFine, CollectSelectors, FirstContext;
    OverviewAcceptedExactlyWhen(plan, items, service);
    if items != [] {
      forall s ensures Provable(plan, items, s) <==> DeclaredAlike(plan, items, s) { ProvableMeans(plan, items, s); }
    }
  }

  // ---- Every violation ----

  // Selector by selector, what is said of its metric. Of a metric that is not controlled, or that the first
  // item does not declare, nothing else is said.
  ghost predicate SelectorMerges(plan: QueryPlan, items: seq<Item>, s: Selector, v: Violation)
    requires items != []
  {
    var name := s.metricName;
    if !ValidMetricName(name) then v == Violation("expr.selectors.metric", MetricNameUncontrolled)
    else if ItemType(items[0], name) == "" then v == Violation("expr.selectors.metric", MetricUndeclared)
    else
      || (v == Violation("expr.selectors.metric", SchemaDiffers)
          && exists item <- items ::
               ItemType(item, name) != ItemType(items[0], name) || ItemLabels(item, name) != ItemLabels(items[0], name))
      || (v == Violation("plan_ids", PlanIDsDoNotCover)
          && !exists item <- items, m <- item.metrics :: m.name == name && m.planID in plan.planIDs)
      || (v == Violation("expr.selectors.matchers.operation", OperationFiltered)
          && exists m <- s.matchers :: m.name == "operation")
  }

  // The rules of the tree know the selected metrics as the first item declares them.
  ghost predicate MergedFacts(f: Facts, plan: QueryPlan, items: seq<Item>, service: string)
    requires items != []
  {
    && f.operation == "" && f.service == service
    && f.errorRatio == (plan.kind == ErrorRatioKind) && f.inFlight == (plan.kind == InFlightKind)
    && KnownAs(f.types, f.labels, items, CollectSelectors(plan.expr))
  }

  ghost predicate Selected(items: seq<Item>, selectors: seq<Selector>, name: string)
    requires items != []
  {
    ValidMetricName(name) && ItemType(items[0], name) != "" && exists s <- selectors :: s.metricName == name
  }

  ghost predicate KnownAs(
    types: map<string, string>, labels: map<string, seq<string>>, items: seq<Item>, selectors: seq<Selector>)
    requires items != []
  {
    && (forall name :: name in types <==> Selected(items, selectors, name))
    && (forall name :: name in labels <==> Selected(items, selectors, name))
    && (forall name <- types :: types[name] == ItemType(items[0], name))
    && (forall name <- labels :: labels[name] == ItemLabels(items[0], name))
  }

  lemma {:induction false} KnowsMore(
    plan: QueryPlan, items: seq<Item>, before: Merged, selectors: seq<Selector>, s: Selector)
    requires items != [] && KnownAs(before.types, before.labels, items, selectors)
    ensures var after := MergeSelector(plan, items, before, s);
            KnownAs(after.types, after.labels, items, selectors + [s])
  {
    hide ValidMetricName, ItemType, ItemLabels, Agreed, Covered, OperationFilters;
    var after := MergeSelector(plan, items, before, s);
    forall name ensures Selected(items, selectors + [s], name) <==>
                          Selected(items, selectors, name) || (Selected(items, [s], name))
    {
      assert forall x :: x in selectors + [s] <==> x in selectors || x in [s];
    }
    assert forall name :: Selected(items, [s], name) <==>
        name == s.metricName && ValidMetricName(name) && ItemType(items[0], name) != "" by { OnlyOne(items, s); }
    hide Selected;
  }

  lemma {:induction false} OnlyOne(items: seq<Item>, s: Selector)
    requires items != []
    ensures forall name :: Selected(items, [s], name) <==>
              name == s.metricName && ValidMetricName(name) && ItemType(items[0], name) != ""
  {
    hide ValidMetricName, ItemType;
    assert [s][0] == s && s in [s];
  }

  lemma {:induction false} NothingKnown(items: seq<Item>)
    requires items != []
    ensures KnownAs(map[], map[], items, [])
  {
  }

  lemma {:induction false} MergeKnows(plan: QueryPlan, items: seq<Item>, selectors: seq<Selector>)
    requires items != []
    ensures KnownAs(MergeSelectors(plan, items, selectors).types, MergeSelectors(plan, items, selectors).labels, items,
                    selectors)
  {
    hide MergeSelector, KnownAs;
    if selectors == [] {
      NothingKnown(items);
    } else {
      var rest, last := selectors[..|selectors| - 1], selectors[|selectors| - 1];
      MergeKnows(plan, items, rest);
      KnowsMore(plan, items, MergeSelectors(plan, items, rest), rest, last);
      assert selectors == rest + [last];
    }
  }

  lemma {:induction false} OperationReported(ms: seq<LabelMatcher>, v: Violation)
    ensures v in OperationFilters(ms) <==>
              v == Violation("expr.selectors.matchers.operation", OperationFiltered)
                  && exists m <- ms :: m.name == "operation"
  {
    hide Flag;
    if ms != [] {
      var rest, last := ms[..|ms| - 1], ms[|ms| - 1];
      OperationReported(rest, v);
      FlagHolds(last.name == "operation", "expr.selectors.matchers.operation", OperationFiltered, v);
      assert ms == rest + [last];
      assert forall m :: m in ms <==> m in rest || m == last;
    }
  }

  lemma {:induction false} UnknownReported(ids: seq<string>, items: seq<Item>, v: Violation)
    ensures v in UnknownIDs(ids, items) <==>
              v == Violation("plan_ids", UndeclaredPlanID) && exists id <- ids :: id !in KnownIDs(items)
  {
    hide Flag, KnownIDs;
    if ids != [] {
      var rest, last := ids[..|ids| - 1], ids[|ids| - 1];
      UnknownReported(rest, items, v);
      FlagHolds(last !in KnownIDs(items), "plan_ids", UndeclaredPlanID, v);
      assert ids == rest + [last];
      assert forall id :: id in ids <==> id in rest || id == last;
    }
  }

  lemma {:induction false} SelectorReportedOnce(
    plan: QueryPlan, items: seq<Item>, before: Merged, s: Selector, v: Violation)
    requires items != []
    ensures v in MergeSelector(plan, items, before, s).violations <==>
              v in before.violations || SelectorMerges(plan, items, s, v)
  {
    hide ValidMetricName, ItemType, ItemLabels, Flag, OperationFilters, NamedIDs;
    var name := s.metricName;
    FlagHolds(!Agreed(items, name), "expr.selectors.metric", SchemaDiffers, v);
    FlagHolds(!Covered(plan, items, name), "plan_ids", PlanIDsDoNotCover, v);
    OperationReported(s.matchers, v);
    assert Covered(plan, items, name) <==>
        exists item <- items, m <- item.metrics :: m.name == name && m.planID in plan.planIDs by {
      CoveredMeans(plan, items, name);
    }
  }

  lemma {:induction false} CoveredMeans(plan: QueryPlan, items: seq<Item>, name: string)
    ensures Covered(plan, items, name) <==>
              exists item <- items, m <- item.metrics :: m.name == name && m.planID in plan.planIDs
  {
  }

  lemma {:induction false} SelectorsReported(plan: QueryPlan, items: seq<Item>, selectors: seq<Selector>, v: Violation)
    requires items != []
    ensures v in MergeSelectors(plan, items, selectors).violations <==>
              exists s <- selectors :: SelectorMerges(plan, items, s, v)
  {
    hide MergeSelector, SelectorMerges;
    if selectors != [] {
      var rest, last := selectors[..|selectors| - 1], selectors[|selectors| - 1];
      SelectorsReported(plan, items, rest, v);
      SelectorReportedOnce(plan, items, MergeSelectors(plan, items, rest), last, v);
      assert selectors == rest + [last];
      assert forall s :: s in selectors <==> s in rest || s == last;
    }
  }

  // Everything that is reported of a query over several items, and nothing else.
  lemma {:induction false} OverviewReportedExactly(
    plan: QueryPlan, items: seq<Item>, service: string, f: Facts, v: Violation)
    requires items != [] ==> MergedFacts(f, plan, items, service)
    ensures v in OverviewViolations(plan, items, service) <==>
              if items == [] then v == Violation("expr", NoItems)
              else
                || (v == Violation("plan_ids", UndeclaredPlanID)
                    && exists id <- plan.planIDs :: !exists item <- items, m <- item.metrics :: m.planID == id)
                || (v == Violation("expr", NoSelector) && CollectSelectors(plan.expr) == [])
                || (exists s <- CollectSelectors(plan.expr) :: SelectorMerges(plan, items, s, v))
                || (v == Violation("expr", BareSelector) && plan.expr.Select?)
                || SomePlaceReports(f, plan.expr, plan.kind == TopFailingKind, 0, "expr", v)
  {
    hide ExprViolations, SomePlaceReports, CollectSelectors, SelectorMerges, Flag, UnknownIDs, MergeSelectors, KnownAs;
    if items != [] {
      var selectors := CollectSelectors(plan.expr);
      var merged := MergeSelectors(plan, items, selectors);
      var c := MergedContext(plan, merged, service);
      UnknownReported(plan.planIDs, items, v);
      FlagHolds(selectors == [], "expr", NoSelector, v);
      SelectorsReported(plan, items, selectors, v);
      FlagHolds(plan.expr.Select?, "expr", BareSelector, v);
      MergeKnows(plan, items, selectors);
      KnownOnce(f.types, f.labels, merged.types, merged.labels, items, selectors);
      assert f == FactsOf(c);
      ReportedExactly(c, plan.expr, "expr", 0, v);
    }
  }

  lemma {:induction false} KnownOnce(
    types: map<string, string>, labels: map<string, seq<string>>, otherTypes: map<string, string>,
    otherLabels: map<string, seq<string>>, items: seq<Item>, selectors: seq<Selector>)
    requires items != [] && KnownAs(types, labels, items, selectors)
    requires KnownAs(otherTypes, otherLabels, items, selectors)
    ensures types == otherTypes && labels == otherLabels
  {
    hide Selected, ItemType, ItemLabels;
  }
}
