/** Trace links: ValidateTraceLink (dashboard/query/validate.go) and its use on the planner's links
    (dashboard/category/category.go). */
module TraceLinks {
  import opened Ordering
  import opened Catalog
  import opened QueryNames
  import opened QueryPlanner

  // The fields of the violations, in order.
  function LinkViolations(link: TraceLinkPlan, item: Item, policy: Policy): seq<string>
  {
    (if link.datasource != policy.datasource then ["trace_link.datasource"] else [])
    + (if ValidServiceValue(link.serviceName) then [] else ["trace_link.service"])
    + (if ValidOperationValue(link.operation) then [] else ["trace_link.operation"])
    + (if ValidSpanName(link.spanName) then [] else ["trace_link.span_name"])
    + UndeclaredIDs(link.planIDs, item)
  }

  function UndeclaredIDs(planIDs: seq<string>, item: Item): seq<string>
  {
    if planIDs == [] then []
    else UndeclaredIDs(planIDs[..|planIDs| - 1], item)
         + if planIDs[|planIDs| - 1] in PlanIDs(item.spans) then [] else ["trace_link.plan_ids"]
  }

  method ValidateTraceLink(link: TraceLinkPlan, item: Item, policy: Policy) returns (violations: seq<string>)
    ensures violations == LinkViolations(link, item, policy)
  {
    hide ValidServiceValue, ValidOperationValue, ValidSpanName, UndeclaredIDs;
    violations := [];
    if link.datasource != policy.datasource { violations := violations + ["trace_link.datasource"]; }
    if !ValidServiceValue(link.serviceName) { violations := violations + ["trace_link.service"]; }
    if !ValidOperationValue(link.operation) { violations := violations + ["trace_link.operation"]; }
    if !ValidSpanName(link.spanName) { violations := violations + ["trace_link.span_name"]; }
    violations := CheckPlanIDs(violations, link.planIDs, item);
  }

  method CheckPlanIDs(before: seq<string>, planIDs: seq<string>, item: Item) returns (violations: seq<string>)
    ensures violations == before + UndeclaredIDs(planIDs, item)
  {
    violations := before;
    var spanPlanIDs: set<string> := {};
    for i := 0 to |item.spans|
      invariant forall id :: id in spanPlanIDs <==> id in PlanIDs(item.spans)[..i]
    {
      spanPlanIDs := spanPlanIDs + {item.spans[i].planID};
    }
    assert PlanIDs(item.spans)[..|item.spans|] == PlanIDs(item.spans);
    for i := 0 to |planIDs|
      invariant violations == before + UndeclaredIDs(planIDs[..i], item)
    {
      assert planIDs[..i + 1][..i] == planIDs[..i];
      if planIDs[i] !in spanPlanIDs { violations := violations + ["trace_link.plan_ids"]; }
    }
    assert planIDs[..|planIDs|] == planIDs;
  }

  lemma {:induction false} AllDeclared(planIDs: seq<string>, item: Item)
    requires forall id <- planIDs :: id in PlanIDs(item.spans)
    ensures UndeclaredIDs(planIDs, item) == []
  {
    if planIDs != [] { AllDeclared(planIDs[..|planIDs| - 1], item); }
  }

  lemma {:induction false} UndeclaredReported(planIDs: seq<string>, item: Item, field: string)
    ensures field in UndeclaredIDs(planIDs, item) <==>
              field == "trace_link.plan_ids" && exists id <- planIDs :: !HasSpan(item, id)
  {
    hide HasSpan;
    if planIDs != [] {
      var rest, last := planIDs[..|planIDs| - 1], planIDs[|planIDs| - 1];
      UndeclaredReported(rest, item, field);
      assert planIDs == rest + [last];
      assert forall id :: id in planIDs <==> id in rest || id == last;
      SpanHas(item, last);
      assert field in UndeclaredIDs(planIDs, item) <==>
          field in UndeclaredIDs(rest, item) || (field == "trace_link.plan_ids" && last !in PlanIDs(item.spans));
    }
  }

  predicate HasSpan(item: Item, id: string) { exists s <- item.spans :: s.planID == id }

  lemma {:induction false} SpanHas(item: Item, id: string)
    ensures id in PlanIDs(item.spans) <==> HasSpan(item, id)
  {
    if s :| s in item.spans && s.planID == id {
      var i :| 0 <= i < |item.spans| && item.spans[i] == s;
      assert PlanIDs(item.spans)[i] == id;
    }
  }

  // Any link is reported for exactly the fields that break a rule.
  lemma {:induction false} LinkReportedExactly(link: TraceLinkPlan, item: Item, policy: Policy, field: string)
    ensures field in LinkViolations(link, item, policy) <==>
              || (field == "trace_link.datasource" && link.datasource != policy.datasource)
              || (field == "trace_link.service" && !ValidServiceValue(link.serviceName))
              || (field == "trace_link.operation" && !ValidOperationValue(link.operation))
              || (field == "trace_link.span_name" && !ValidSpanName(link.spanName))
              || (field == "trace_link.plan_ids" && exists id <- link.planIDs :: !HasSpan(item, id))
  {
    hide ValidServiceValue, ValidOperationValue, ValidSpanName, UndeclaredIDs;
    UndeclaredReported(link.planIDs, item, field);
  }

  // An item has one trace link exactly when the policy and the item allow it and the first span's
  // name is controlled. The link passes its validation, and so is shown, exactly when the service
  // and the operation are controlled too; no diagnostic is about the operation.
  lemma {:induction false} PlannedLinkShownExactlyWhen(item: Item, raw: string, policy: Policy)
    ensures var p := PlanItem(item, raw, policy);
            && |p.links| == (if && policy.includeTraceLinks && item.capabilities.traceLink
                                && item.spans != [] && ValidSpanName(item.spans[0].name) then 1 else 0)
            && (forall link <- p.links ::
                  LinkViolations(link, item, policy) == [] <==>
                    ValidServiceValue(raw) && ValidOperationValue(item.operation))
            && (forall d <- p.diagnostics :: d.field != "operation")
  {
    hide ValidSpanName, ValidOperationValue, ValidServiceValue, SortStrings, FirstSuiting;
    hide LinkLeq, DiagnosticLeq, SortBy, PlansOf;
    var p := PlanItem(item, raw, policy);
    var links := PlanTraceLink(item, ValidatedService(raw), policy).links;
    forall link | link in p.links
      ensures LinkViolations(link, item, policy) == [] <==>
                ValidServiceValue(raw) && ValidOperationValue(item.operation)
    {
      assert link in multiset(p.links);
      assert link in multiset(links);
      LinkAccepted(item, raw, policy);
    }
    forall d | d in p.diagnostics ensures d.field != "operation" {
      assert d in multiset(p.diagnostics);
      assert d in multiset(UnsortedDiagnostics(item, raw, policy));
      NoOperationField(item, raw, policy);
    }
  }

  lemma {:induction false} LinkAccepted(item: Item, raw: string, policy: Policy)
    requires item.spans != [] && ValidSpanName(item.spans[0].name)
    ensures LinkViolations(TraceLinkOf(item, ValidatedService(raw), policy), item, policy) == [] <==>
              ValidServiceValue(raw) && ValidOperationValue(item.operation)
  {
    hide ValidSpanName, SortStrings;
    var ids := SortStrings(PlanIDs(item.spans));
    forall id | id in ids ensures id in PlanIDs(item.spans) {
      assert id in multiset(ids);
      assert id in multiset(PlanIDs(item.spans));
    }
    AllDeclared(ids, item);
  }

  // No diagnostic is about the operation.
  predicate Silent(diagnostics: seq<Diagnostic>)
  {
    forall d <- diagnostics :: d.field != "operation"
  }

  lemma {:induction false} NoOperationField(item: Item, raw: string, policy: Policy)
    ensures Silent(UnsortedDiagnostics(item, raw, policy))
  {
    hide Silent, PlanRate, PlanErrorRatio, PlanPercentiles, PlanInFlight, PlanTraceLink, DroppedNames;
    hide ValidServiceValue;
    var service, interval := ValidatedService(raw), policy.rateInterval;
    var first := if ValidServiceValue(raw) then [] else [Diagnostic(SensitiveValueDropped, "service", "service.name")];
    assert Silent(first) by { ServiceSilent(); }
    NamesSilent(item, item.metrics);
    QueriesSilent(item, service, interval);
    TraceSilent(item, service, policy);
    var second := first + DroppedNames(item, item.metrics);
    var third := second + PlanRate(item, service, interval).diagnostics;
    var fourth := third + PlanErrorRatio(item, service, interval).diagnostics;
    var fifth := fourth + PlanPercentiles(item, service, interval).diagnostics;
    var sixth := fifth + PlanInFlight(item, service).diagnostics;
    BothSilent(first, DroppedNames(item, item.metrics));
    BothSilent(second, PlanRate(item, service, interval).diagnostics);
    BothSilent(third, PlanErrorRatio(item, service, interval).diagnostics);
    BothSilent(fourth, PlanPercentiles(item, service, interval).diagnostics);
    BothSilent(fifth, PlanInFlight(item, service).diagnostics);
    BothSilent(sixth, PlanTraceLink(item, service, policy).diagnostics);
  }

  lemma {:induction false} BothSilent(before: seq<Diagnostic>, after: seq<Diagnostic>)
    requires Silent(before) && Silent(after)
    ensures Silent(before + after)
  {
  }

  lemma {:induction false} ServiceSilent()
    ensures Silent([]) && Silent([Diagnostic(SensitiveValueDropped, "service", "service.name")])
  {
  }

  lemma {:induction false} QueriesSilent(item: Item, service: string, interval: string)
    ensures Silent(PlanRate(item, service, interval).diagnostics)
    ensures Silent(PlanErrorRatio(item, service, interval).diagnostics)
    ensures Silent(PlanPercentiles(item, service, interval).diagnostics)
    ensures Silent(PlanInFlight(item, service).diagnostics)
  {
    hide Silent, Missing, FirstSuiting, RatePlan, ErrorRatioPlan, PercentilePlan, InFlightPlan;
    assert Silent([]) by { ServiceSilent(); }
    MissingSilent(item, "capabilities.rate");
    MissingSilent(item, "capabilities.error_ratio");
    MissingSilent(item, "capabilities.percentiles");
    MissingSilent(item, "capabilities.in_flight");
    MissingSilent(item, "metrics[].type");
  }

  lemma {:induction false} MissingSilent(item: Item, field: string)
    requires |field| != |"operation"|
    ensures Silent(Missing(item, field).diagnostics)
  {
  }

  lemma {:induction false} TraceSilent(item: Item, service: string, policy: Policy)
    ensures Silent(PlanTraceLink(item, service, policy).diagnostics)
  {
    hide ValidSpanName, TraceLinkOf;
    assert |"spans[].name"| != |"operation"| && |"capabilities.trace_link"| != |"operation"|;
  }

  lemma {:induction false} NamesSilent(item: Item, metrics: seq<SignalReference>)
    ensures Silent(DroppedNames(item, metrics))
  {
    hide ValidMetricName;
    assert |"metrics[].name"| != |"operation"|;
    if metrics != [] { NamesSilent(item, metrics[..|metrics| - 1]); }
  }

  // The links of a panel: those that pass.
  method ShownLinks(links: seq<TraceLinkPlan>, item: Item, policy: Policy) returns (shown: seq<TraceLinkPlan>)
    ensures shown == Passing(links, item, policy)
  {
    hide LinkViolations;
    shown := [];
    for i := 0 to |links|
      invariant shown == Passing(links[..i], item, policy)
    {
      assert links[..i + 1][..i] == links[..i];
      var violations := ValidateTraceLink(links[i], item, policy);
      if |violations| > 0 { continue; }
      shown := shown + [links[i]];
    }
    assert links[..|links|] == links;
  }

  function Passing(links: seq<TraceLinkPlan>, item: Item, policy: Policy): seq<TraceLinkPlan>
  {
    if links == [] then []
    else Passing(links[..|links| - 1], item, policy)
         + if LinkViolations(links[|links| - 1], item, policy) == [] then [links[|links| - 1]] else []
  }
}
