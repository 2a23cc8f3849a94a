/** dashboard/query/planner.go: the queries built for one catalog item. */
module QueryPlanner {
  import opened Wrappers
  import opened Ordering
  import opened QueryTypes
  import opened QueryNames
  import opened Catalog

  // Messages are left out; a diagnostic is its code, its target and the field it is about.
  datatype Diagnostic = Diagnostic(code: string, targetID: string, field: string)

  const SensitiveValueDropped := "DASHBOARD_SENSITIVE_VALUE_DROPPED"
  const MissingRequiredMetric := "DASHBOARD_MISSING_REQUIRED_METRIC"

  datatype Planned = Planned(plans: seq<QueryPlan>, diagnostics: seq<Diagnostic>)

  function Missing(item: Item, field: string): Planned
  {
    Planned([], [Diagnostic(MissingRequiredMetric, item.id, field)])
  }

  // ---- Choosing a metric ----

  predicate HasAttributes(r: SignalReference, wanted: seq<string>)
  {
    forall a <- wanted :: a in r.attributes
  }

  predicate Suits(r: SignalReference, typ: string, wanted: seq<string>)
  {
    r.typ == typ && ValidMetricName(r.name) && HasAttributes(r, wanted)
  }

  function FirstSuiting(metrics: seq<SignalReference>, typ: string, wanted: seq<string>): (r: Option<SignalReference>)
    ensures r.None? <==> forall m <- metrics :: !Suits(m, typ, wanted)
    ensures r.Some? ==> exists k :: 0 <= k < |metrics| && metrics[k] == r.value && Suits(r.value, typ, wanted)
                                    && forall i :: 0 <= i < k ==> !Suits(metrics[i], typ, wanted)
  {
    if metrics == [] then None
    else if Suits(metrics[0], typ, wanted) then Some(metrics[0])
    else
      var r := FirstSuiting(metrics[1..], typ, wanted);
      assert metrics == [metrics[0]] + metrics[1..];
      r
  }

  lemma {:induction false} FirstSuitingAt(metrics: seq<SignalReference>, typ: string, wanted: seq<string>, k: nat)
    requires k <= |metrics| && forall i :: 0 <= i < k ==> !Suits(metrics[i], typ, wanted)
    ensures k == |metrics| ==> FirstSuiting(metrics, typ, wanted) == None
    ensures k < |metrics| && Suits(metrics[k], typ, wanted) ==>
              FirstSuiting(metrics, typ, wanted) == Some(metrics[k])
  {
    hide Suits;
    if k > 0 { FirstSuitingAt(metrics[1..], typ, wanted, k - 1); }
  }

  method FirstMetric(item: Item, typ: string, wanted: seq<string>) returns (r: Option<SignalReference>)
    ensures r == FirstSuiting(item.metrics, typ, wanted)
  {
    hide ValidMetricName, FirstSuiting;
    for i := 0 to |item.metrics|
      invariant forall j :: 0 <= j < i ==> !Suits(item.metrics[j], typ, wanted)
    {
      var reference := item.metrics[i];
      if reference.typ != typ || !ValidMetricName(reference.name) { continue; }
      var missing := false;
      for j := 0 to |wanted|
        invariant !missing && forall a <- wanted[..j] :: a in reference.attributes
      {
        if wanted[j] !in reference.attributes {
          missing := true;
          break;
        }
      }
      if missing { continue; }
      assert wanted[..|wanted|] == wanted;
      FirstSuitingAt(item.metrics, typ, wanted, i);
      return Some(reference);
    }
    FirstSuitingAt(item.metrics, typ, wanted, |item.metrics|);
    return None;
  }

  // ---- Selectors ----

  function ServiceMatcher(service: string): LabelMatcher { LabelMatcher("service", MatchEqual, service) }

  function OperationMatcher(operation: string): LabelMatcher { LabelMatcher("operation", MatchEqual, operation) }

  const StatusMatcher := LabelMatcher("status", MatchRegex, ErrorStatusPattern)

  const BucketMatcher := LabelMatcher("le", MatchNotEqual, BucketBoundary)

  function BaseMatchersOf(r: SignalReference, service: string, operation: string): seq<LabelMatcher>
  {
    (if "service" in r.attributes && service != "" then [ServiceMatcher(service)] else [])
    + if "operation" in r.attributes && operation != "" && ValidOperationValue(operation)
      then [OperationMatcher(operation)] else []
  }

  predicate LabelLeq(a: LabelMatcher, b: LabelMatcher) { StringLeq(a.name, b.name) }

  function SelectorWith(name: string, matchers: seq<LabelMatcher>): Selector
  {
    Selector(name, SortBy(LabelLeq, matchers))
  }

  function ValidatedService(service: string): string
  {
    if ValidServiceValue(service) then service else ""
  }

  // ---- One query class each ----

  function PlanFor(item: Item, kind: QueryKind, purpose: string, r: SignalReference, expr: Expr): QueryPlan
  {
    QueryPlan("query:" + KindText(kind) + ":" + item.id + ":" + purpose, kind, item.id, purpose, [r.planID], expr)
  }

  function RatePlan(item: Item, service: string, interval: string, r: SignalReference): QueryPlan
  {
    var s := SelectorWith(r.name, BaseMatchersOf(r, service, item.operation));
    PlanFor(item, RateKind, "rate", r, Sum(["operation"], Rate(s, interval)))
  }

  function ByOperation(r: SignalReference): seq<string>
  {
    if "operation" in r.attributes then ["operation"] else []
  }

  function ErrorRatioPlan(item: Item, service: string, interval: string, r: SignalReference): QueryPlan
  {
    var base := BaseMatchersOf(r, service, item.operation);
    var top, bottom := SelectorWith(r.name, base + [StatusMatcher]), Selector(r.name, base);
    PlanFor(item, ErrorRatioKind, "error_ratio", r,
            Divide(Sum(ByOperation(r), Rate(top, interval)), Sum(ByOperation(r), Rate(bottom, interval))))
  }

  function PurposeForQuantile(q: real): string
  {
    if q == 0.50 then "p50" else if q == 0.95 then "p95" else "p99"
  }

  function PercentilePlan(item: Item, service: string, interval: string, r: SignalReference, q: real): QueryPlan
  {
    var s := SelectorWith(r.name, BaseMatchersOf(r, service, item.operation) + [BucketMatcher]);
    PlanFor(item, PercentileKind, PurposeForQuantile(q), r, Quantile(q, Sum(["le"], Rate(s, interval))))
  }

  function InFlightPlan(item: Item, service: string, r: SignalReference): QueryPlan
  {
    var s := SelectorWith(r.name, BaseMatchersOf(r, service, item.operation));
    PlanFor(item, InFlightKind, "in_flight", r, Sum(ByOperation(r), Select(s)))
  }

  function PlanRate(item: Item, service: string, interval: string): Planned
  {
    if !item.capabilities.rate then Missing(item, "capabilities.rate")
    else
      match FirstSuiting(item.metrics, "counter", ["service", "operation"])
      case None => Missing(item, "metrics[].type")
      case Some(r) => Planned([RatePlan(item, service, interval, r)], [])
  }

  function PlanErrorRatio(item: Item, service: string, interval: string): Planned
  {
    if !item.capabilities.errorRatio then Missing(item, "capabilities.error_ratio")
    else
      match FirstSuiting(item.metrics, "counter", ["status"])
      case None => Missing(item, "metrics[].type")
      case Some(r) => Planned([ErrorRatioPlan(item, service, interval, r)], [])
  }

  function PlanPercentiles(item: Item, service: string, interval: string): Planned
  {
    if !item.capabilities.percentiles then Missing(item, "capabilities.percentiles")
    else
      match FirstSuiting(item.metrics, "histogram", ["service", "operation"])
      case None => Missing(item, "metrics[].type")
      case Some(r) =>
        Planned([PercentilePlan(item, service, interval, r, 0.50),
                 PercentilePlan(item, service, interval, r, 0.95),
                 PercentilePlan(item, service, interval, r, 0.99)], [])
  }

  function PlanInFlight(item: Item, service: string): Planned
  {
    if !item.capabilities.inFlight then Missing(item, "capabilities.in_flight")
    else
      match FirstSuiting(item.metrics, "gauge", [])
      case None => Missing(item, "metrics[].type")
      case Some(r) => Planned([InFlightPlan(item, service, r)], [])
  }

  // ---- The trace link ----

  datatype PlannedLinks = PlannedLinks(links: seq<TraceLinkPlan>, diagnostics: seq<Diagnostic>)

  function PlanIDs(references: seq<SignalReference>): (r: seq<string>)
    ensures |r| == |references| && forall i :: 0 <= i < |r| ==> r[i] == references[i].planID
  {
    seq(|references|, i requires 0 <= i < |references| => references[i].planID)
  }

  // An operation that is no controlled value is left empty.
  function TraceLinkOf(item: Item, service: string, policy: Policy): TraceLinkPlan
    requires item.spans != []
  {
    TraceLinkPlan("trace:" + item.id, item.id, SortStrings(PlanIDs(item.spans)), policy.datasource, service,
                  if ValidOperationValue(item.operation) then item.operation else "", item.spans[0].name)
  }

  function PlanTraceLink(item: Item, service: string, policy: Policy): PlannedLinks
  {
    if !policy.includeTraceLinks then PlannedLinks([], [])
    else if !item.capabilities.traceLink || item.spans == [] then
      PlannedLinks([], Missing(item, "capabilities.trace_link").diagnostics)
    else if !ValidSpanName(item.spans[0].name) then
      PlannedLinks([], [Diagnostic(SensitiveValueDropped, item.id, "spans[].name")])
    else PlannedLinks([TraceLinkOf(item, service, policy)], [])
  }

  // ---- The whole item ----

  function DroppedNames(item: Item, metrics: seq<SignalReference>): seq<Diagnostic>
  {
    if metrics == [] then []
    else DroppedNames(item, metrics[..|metrics| - 1])
         + if ValidMetricName(metrics[|metrics| - 1].name) then []
           else [Diagnostic(SensitiveValueDropped, item.id, "metrics[].name")]
  }

  function UnsortedPlans(item: Item, service: string, interval: string): seq<QueryPlan>
  {
    PlanRate(item, service, interval).plans + PlanErrorRatio(item, service, interval).plans
    + PlanPercentiles(item, service, interval).plans + PlanInFlight(item, service).plans
  }

  function UnsortedDiagnostics(item: Item, raw: string, policy: Policy): seq<Diagnostic>
  {
    var service, interval := ValidatedService(raw), policy.rateInterval;
    (if ValidServiceValue(raw) then [] else [Diagnostic(SensitiveValueDropped, "service", "service.name")])
    + DroppedNames(item, item.metrics)
    + PlanRate(item, service, interval).diagnostics + PlanErrorRatio(item, service, interval).diagnostics
    + PlanPercentiles(item, service, interval).diagnostics + PlanInFlight(item, service).diagnostics
    + PlanTraceLink(item, service, policy).diagnostics
  }

  predicate KeyLeq(a: QueryPlan, b: QueryPlan) { StringLeq(a.canonicalKey, b.canonicalKey) }

  predicate DiagnosticLeq(a: Diagnostic, b: Diagnostic)
  {
    if a.code != b.code then StringLeq(a.code, b.code)
    else if a.targetID != b.targetID then StringLeq(a.targetID, b.targetID)
    else StringLeq(a.field, b.field)
  }

  predicate LinkLeq(a: TraceLinkPlan, b: TraceLinkPlan) { StringLeq(a.canonicalKey, b.canonicalKey) }

  function PlansOf(item: Item, raw: string, interval: string): seq<QueryPlan>
  {
    SortBy(KeyLeq, UnsortedPlans(item, ValidatedService(raw), interval))
  }

  datatype PlannedItem = PlannedItem(
    plans: seq<QueryPlan>, links: seq<TraceLinkPlan>, diagnostics: seq<Diagnostic>)

  function PlanItem(item: Item, raw: string, policy: Policy): PlannedItem
  {
    PlannedItem(PlansOf(item, raw, policy.rateInterval),
                SortBy(LinkLeq, PlanTraceLink(item, ValidatedService(raw), policy).links),
                SortBy(DiagnosticLeq, UnsortedDiagnostics(item, raw, policy)))
  }

  // ---- The planner as written ----

  method AppendRatePlan(
    plans: seq<QueryPlan>, diagnostics: seq<Diagnostic>, item: Item, service: string, interval: string)
    returns (ps: seq<QueryPlan>, ds: seq<Diagnostic>)
    ensures var r := PlanRate(item, service, interval); ps == plans + r.plans && ds == diagnostics + r.diagnostics
  {
    hide FirstSuiting, RatePlan;
    ps, ds := plans, diagnostics;
    if !item.capabilities.rate { return ps, ds + Missing(item, "capabilities.rate").diagnostics; }
    var counter := FirstMetric(item, "counter", ["service", "operation"]);
    if counter.None? { return ps, ds + Missing(item, "metrics[].type").diagnostics; }
    ps := ps + [RatePlan(item, service, interval, counter.value)];
  }

  method AppendErrorRatioPlan(
    plans: seq<QueryPlan>, diagnostics: seq<Diagnostic>, item: Item, service: string, interval: string)
    returns (ps: seq<QueryPlan>, ds: seq<Diagnostic>)
    ensures var r := PlanErrorRatio(item, service, interval); ps == plans + r.plans && ds == diagnostics + r.diagnostics
  {
    hide FirstSuiting, ErrorRatioPlan;
    ps, ds := plans, diagnostics;
    if !item.capabilities.errorRatio { return ps, ds + Missing(item, "capabilities.error_ratio").diagnostics; }
    var counter := FirstMetric(item, "counter", ["status"]);
    if counter.None? { return ps, ds + Missing(item, "metrics[].type").diagnostics; }
    ps := ps + [ErrorRatioPlan(item, service, interval, counter.value)];
  }

  method AppendPercentilePlans(
    plans: seq<QueryPlan>, diagnostics: seq<Diagnostic>, item: Item, service: string, interval: string)
    returns (ps: seq<QueryPlan>, ds: seq<Diagnostic>)
    ensures var r := PlanPercentiles(item, service, interval);
            ps == plans + r.plans && ds == diagnostics + r.diagnostics
  {
    hide FirstSuiting, PercentilePlan;
    ps, ds := plans, diagnostics;
    if !item.capabilities.percentiles { return ps, ds + Missing(item, "capabilities.percentiles").diagnostics; }
    var histogram := FirstMetric(item, "histogram", ["service", "operation"]);
    if histogram.None? { return ps, ds + Missing(item, "metrics[].type").diagnostics; }
    ghost var all := PlanPercentiles(item, service, interval).plans;
    for i := 0 to |FixedQuantiles|
      invariant ps == plans + all[..i]
    {
      assert all[..i + 1] == all[..i] + [all[i]];
      ps := ps + [PercentilePlan(item, service, interval, histogram.value, FixedQuantiles[i])];
    }
    assert all[..3] == all;
  }

  method AppendInFlightPlan(plans: seq<QueryPlan>, diagnostics: seq<Diagnostic>, item: Item, service: string)
    returns (ps: seq<QueryPlan>, ds: seq<Diagnostic>)
    ensures var r := PlanInFlight(item, service); ps == plans + r.plans && ds == diagnostics + r.diagnostics
  {
    hide FirstSuiting, InFlightPlan;
    ps, ds := plans, diagnostics;
    if !item.capabilities.inFlight { return ps, ds + Missing(item, "capabilities.in_flight").diagnostics; }
    var gauge := FirstMetric(item, "gauge", []);
    if gauge.None? { return ps, ds + Missing(item, "metrics[].type").diagnostics; }
    ps := ps + [InFlightPlan(item, service, gauge.value)];
  }

  method AppendTraceLink(
    links: seq<TraceLinkPlan>, diagnostics: seq<Diagnostic>, item: Item, service: string, policy: Policy)
    returns (ls: seq<TraceLinkPlan>, ds: seq<Diagnostic>)
    ensures var r := PlanTraceLink(item, service, policy); ls == links + r.links && ds == diagnostics + r.diagnostics
  {
    hide ValidSpanName, ValidOperationValue, SortStrings;
    ls, ds := links, diagnostics;
    if !policy.includeTraceLinks { return; }
    if !item.capabilities.traceLink || |item.spans| == 0 {
      return ls, ds + Missing(item, "capabilities.trace_link").diagnostics;
    }
    var span := item.spans[0];
    if !ValidSpanName(span.name) { return ls, ds + [Diagnostic(SensitiveValueDropped, item.id, "spans[].name")]; }
    var operation := item.operation;
    if !ValidOperationValue(operation) { operation := ""; }
    var planIDs: seq<string> := [];
    for i := 0 to |item.spans|
      invariant planIDs == PlanIDs(item.spans)[..i]
    {
      planIDs := planIDs + [item.spans[i].planID];
    }
    assert PlanIDs(item.spans)[..|item.spans|] == PlanIDs(item.spans);
    planIDs := SortStrings(planIDs);
    ls := ls + [TraceLinkPlan("trace:" + item.id, item.id, planIDs, policy.datasource, service, operation, span.name)];
  }

  method DropNames(item: Item, before: seq<Diagnostic>) returns (diagnostics: seq<Diagnostic>)
    ensures diagnostics == before + DroppedNames(item, item.metrics)
  {
    hide ValidMetricName;
    diagnostics := before;
    for i := 0 to |item.metrics|
      invariant diagnostics == before + DroppedNames(item, item.metrics[..i])
    {
      assert item.metrics[..i + 1][..i] == item.metrics[..i];
      if !ValidMetricName(item.metrics[i].name) {
        diagnostics := diagnostics + [Diagnostic(SensitiveValueDropped, item.id, "metrics[].name")];
      }
    }
    assert item.metrics[..|item.metrics|] == item.metrics;
  }

  method PlanItemQueries(item: Item, raw: string, policy: Policy)
    returns (plans: seq<QueryPlan>, links: seq<TraceLinkPlan>, diagnostics: seq<Diagnostic>)
    ensures PlannedItem(plans, links, diagnostics) == PlanItem(item, raw, policy)
  {
    hide SortBy, PlanRate, PlanErrorRatio, PlanPercentiles, PlanInFlight, PlanTraceLink, DroppedNames;
    hide ValidServiceValue;
    var service, interval := if ValidServiceValue(raw) then raw else "", policy.rateInterval;
    plans, links, diagnostics := [], [], [];
    if !ValidServiceValue(raw) { diagnostics := [Diagnostic(SensitiveValueDropped, "service", "service.name")]; }
    diagnostics := DropNames(item, diagnostics);
    plans, diagnostics := AppendRatePlan(plans, diagnostics, item, service, interval);
    plans, diagnostics := AppendErrorRatioPlan(plans, diagnostics, item, service, interval);
    plans, diagnostics := AppendPercentilePlans(plans, diagnostics, item, service, interval);
    plans, diagnostics := AppendInFlightPlan(plans, diagnostics, item, service);
    links, diagnostics := AppendTraceLink(links, diagnostics, item, service, policy);
    assert [] + PlanRate(item, service, interval).plans == PlanRate(item, service, interval).plans;
    assert [] + PlanTraceLink(item, service, policy).links == PlanTraceLink(item, service, policy).links;
    assert plans == UnsortedPlans(item, service, interval);
    assert diagnostics == UnsortedDiagnostics(item, raw, policy);
    plans := SortBy(KeyLeq, plans);
    links := SortBy(LinkLeq, links);
    diagnostics := SortBy(DiagnosticLeq, diagnostics);
  }
}
