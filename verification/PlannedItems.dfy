/** What planning one item gives as a whole: which metric each query class takes, what is reported where
    it takes none, and that the three sorted lists hold that and nothing else. */
module PlannedItems {
  import opened Ordering
  import opened QueryTypes
  import opened QueryNames
  import opened Catalog
  import opened QueryPlanner

  // ---- One query class ----

  predicate Fits(m: SignalReference, typ: string, labels: seq<string>)
  {
    m.typ == typ && ValidMetricName(m.name) && forall l <- labels :: l in m.attributes
  }

  ghost predicate FirstFit(metrics: seq<SignalReference>, typ: string, labels: seq<string>, k: nat)
  {
    k < |metrics| && Fits(metrics[k], typ, labels) && forall i :: 0 <= i < k ==> !Fits(metrics[i], typ, labels)
  }

  function Sources(e: Expr): set<string>
  {
    match e
    case Select(s) => {s.metricName}
    case Rate(s, _) => {s.metricName}
    case Sum(_, inner) => Sources(inner)
    case Divide(l, r) => Sources(l) + Sources(r)
    case Quantile(_, inner) => Sources(inner)
    case _ => {}
  }

  // The class has its queries, all over the first metric that fits, or else one diagnostic: that the
  // capability is missing, or that no metric fits.
  ghost predicate Answers(
    p: Planned, item: Item, available: bool, capability: string, typ: string, labels: seq<string>, count: nat)
  {
    if available && exists m <- item.metrics :: Fits(m, typ, labels) then
      && p.diagnostics == [] && |p.plans| == count
      && exists k: nat | FirstFit(item.metrics, typ, labels, k) ::
           forall plan <- p.plans ::
             plan.itemID == item.id && plan.planIDs == [item.metrics[k].planID]
                 && Sources(plan.expr) == {item.metrics[k].name}
    else
      && p.plans == []
      && p.diagnostics == [Diagnostic("DASHBOARD_MISSING_REQUIRED_METRIC", item.id,
                                      if available then "metrics[].type" else capability)]
  }

  lemma {:induction false} FirstSuitingFits(item: Item, typ: string, labels: seq<string>)
    ensures var r := FirstSuiting(item.metrics, typ, labels);
            && (r.Some? <==> exists m <- item.metrics :: Fits(m, typ, labels))
            && (r.Some? ==> exists k: nat :: FirstFit(item.metrics, typ, labels, k) && item.metrics[k] == r.value)
  {
    hide ValidMetricName;
    assert forall m :: Suits(m, typ, labels) <==> Fits(m, typ, labels);
    var r := FirstSuiting(item.metrics, typ, labels);
    if r.Some? {
      var k :| 0 <= k < |item.metrics| && item.metrics[k] == r.value && Suits(r.value, typ, labels)
               && forall i :: 0 <= i < k ==> !Suits(item.metrics[i], typ, labels);
      assert FirstFit(item.metrics, typ, labels, k);
    }
  }

  lemma {:induction false} SourcesOfPlans(item: Item, service: string, interval: string, r: SignalReference, q: real)
    ensures Sources(RatePlan(item, service, interval, r).expr) == {r.name}
    ensures Sources(ErrorRatioPlan(item, service, interval, r).expr) == {r.name}
    ensures Sources(PercentilePlan(item, service, interval, r, q).expr) == {r.name}
    ensures Sources(InFlightPlan(item, service, r).expr) == {r.name}
  {
    hide SortBy, BaseMatchersOf;
    var ratio := ErrorRatioPlan(item, service, interval, r).expr;
    assert Sources(ratio.left.expr) == {r.name} && Sources(ratio.right.expr) == {r.name};
    assert Sources(PercentilePlan(item, service, interval, r, q).expr.expr.expr) == {r.name};
  }

  // Every query class has its queries over the first metric that fits, or is reported, never both.
  lemma {:induction false} PlannedOrReported(item: Item, service: string, interval: string)
    ensures Answers(PlanRate(item, service, interval), item, item.capabilities.rate, "capabilities.rate",
                    "counter", ["service", "operation"], 1)
    ensures Answers(PlanErrorRatio(item, service, interval), item, item.capabilities.errorRatio,
                    "capabilities.error_ratio", "counter", ["status"], 1)
    ensures Answers(PlanPercentiles(item, service, interval), item, item.capabilities.percentiles,
                    "capabilities.percentiles", "histogram", ["service", "operation"], 3)
    ensures Answers(PlanInFlight(item, service), item, item.capabilities.inFlight, "capabilities.in_flight",
                    "gauge", [], 1)
  {
    RateAnswers(item, service, interval);
    ErrorRatioAnswers(item, service, interval);
    PercentilesAnswer(item, service, interval);
    InFlightAnswers(item, service);
  }

  lemma {:induction false} RateAnswers(item: Item, service: string, interval: string)
    ensures Answers(PlanRate(item, service, interval), item, item.capabilities.rate, "capabilities.rate",
                    "counter", ["service", "operation"], 1)
  {
    hide Fits, FirstFit, Sources, SelectorWith, BaseMatchersOf, KindText, FirstSuiting;
    FirstSuitingFits(item, "counter", ["service", "operation"]);
    forall r ensures Sources(RatePlan(item, service, interval, r).expr) == {r.name} {
      SourcesOfPlans(item, service, interval, r, 0.5);
    }
  }

  lemma {:induction false} ErrorRatioAnswers(item: Item, service: string, interval: string)
    ensures Answers(PlanErrorRatio(item, service, interval), item, item.capabilities.errorRatio,
                    "capabilities.error_ratio", "counter", ["status"], 1)
  {
    hide Fits, FirstFit, Sources, SelectorWith, BaseMatchersOf, KindText, FirstSuiting;
    FirstSuitingFits(item, "counter", ["status"]);
    forall r ensures Sources(ErrorRatioPlan(item, service, interval, r).expr) == {r.name} {
      SourcesOfPlans(item, service, interval, r, 0.5);
    }
  }

  lemma {:induction false} PercentilesAnswer(item: Item, service: string, interval: string)
    ensures Answers(PlanPercentiles(item, service, interval), item, item.capabilities.percentiles,
                    "capabilities.percentiles", "histogram", ["service", "operation"], 3)
  {
    hide Fits, FirstFit, Sources, SelectorWith, BaseMatchersOf, KindText, FirstSuiting, PurposeForQuantile;
    FirstSuitingFits(item, "histogram", ["service", "operation"]);
    forall r, q ensures Sources(PercentilePlan(item, service, interval, r, q).expr) == {r.name} {
      SourcesOfPlans(item, service, interval, r, q);
    }
  }

  lemma {:induction false} InFlightAnswers(item: Item, service: string)
    ensures Answers(PlanInFlight(item, service), item, item.capabilities.inFlight, "capabilities.in_flight",
                    "gauge", [], 1)
  {
    hide Fits, FirstFit, Sources, BaseMatchersOf, KindText, FirstSuiting;
    FirstSuitingFits(item, "gauge", []);
    forall r ensures Sources(InFlightPlan(item, service, r).expr) == {r.name} {
      SourcesOfPlans(item, service, "", r, 0.5);
    }
  }

  // ---- The trace link ----

  ghost predicate LinkOf(link: TraceLinkPlan, item: Item, service: string, policy: Policy)
    requires item.spans != []
  {
    && link.canonicalKey == "trace:" + item.id && link.itemID == item.id
    && link.datasource == policy.datasource && link.serviceName == service
    && link.operation == (if ValidOperationValue(item.operation) then item.operation else "")
    && link.spanName == item.spans[0].name
    && multiset(link.planIDs) == multiset(PlanIDs(item.spans)) && SortedBy(StringLeq, link.planIDs)
  }

  // Without the policy there is neither link nor report; else there is one of the two.
  lemma {:induction false} LinkedOrReported(item: Item, service: string, policy: Policy)
    ensures var p := PlanTraceLink(item, service, policy);
            var linked := item.capabilities.traceLink && item.spans != [];
            if !policy.includeTraceLinks then p.links == [] && p.diagnostics == []
            else if linked && ValidSpanName(item.spans[0].name) then
              p.diagnostics == [] && |p.links| == 1 && LinkOf(p.links[0], item, service, policy)
            else
              && p.links == []
              && p.diagnostics == [if linked
                                   then Diagnostic("DASHBOARD_SENSITIVE_VALUE_DROPPED", item.id, "spans[].name")
                                   else Diagnostic("DASHBOARD_MISSING_REQUIRED_METRIC", item.id,
                                                   "capabilities.trace_link")]
  {
    hide ValidSpanName, ValidOperationValue, SortStrings;
    SortStringsCanonical(PlanIDs(item.spans), []);
  }

  // ---- The whole item ----

  // The metrics whose names are not controlled.
  function BadNames(metrics: seq<SignalReference>): set<nat>
  {
    set i: nat | i < |metrics| && !ValidMetricName(metrics[i].name)
  }

  lemma {:induction false} EachBadNameIsReported(item: Item, metrics: seq<SignalReference>)
    ensures |DroppedNames(item, metrics)| == |BadNames(metrics)|
    ensures forall d <- DroppedNames(item, metrics) ::
              d == Diagnostic("DASHBOARD_SENSITIVE_VALUE_DROPPED", item.id, "metrics[].name")
  {
    hide ValidMetricName;
    if metrics == [] {
      assert BadNames(metrics) == {};
    } else {
      hide BadNames;
      EachBadNameIsReported(item, metrics[..|metrics| - 1]);
      LastName(metrics);
    }
  }

  lemma {:induction false} LastName(metrics: seq<SignalReference>)
    requires metrics != []
    ensures var n := |metrics| - 1;
            |BadNames(metrics)| == |BadNames(metrics[..n])| + if ValidMetricName(metrics[n].name) then 0 else 1
  {
    hide ValidMetricName;
    var n := |metrics| - 1;
    var rest := BadNames(metrics[..n]);
    assert BadNames(metrics) == rest + if ValidMetricName(metrics[n].name) then {} else {n};
    assert n !in rest;
  }

  // The diagnostics' order: by code, then by target, then by field.
  predicate NotAfter(a: Diagnostic, b: Diagnostic)
  {
    && StringLeq(a.code, b.code)
    && (a.code == b.code ==> StringLeq(a.targetID, b.targetID))
    && (a.code == b.code && a.targetID == b.targetID ==> StringLeq(a.field, b.field))
  }

  lemma {:induction false} DiagnosticOrder()
    ensures TotalPreorder(DiagnosticLeq) && forall a, b :: DiagnosticLeq(a, b) ==> NotAfter(a, b)
  {
    forall a, b ensures DiagnosticLeq(a, b) || DiagnosticLeq(b, a) {
      StringLeqTotal(a.code, b.code);
      StringLeqTotal(a.targetID, b.targetID);
      StringLeqTotal(a.field, b.field);
    }
    forall a, b, c | DiagnosticLeq(a, b) && DiagnosticLeq(b, c) ensures DiagnosticLeq(a, c) {
      DiagnosticTransitive(a, b, c);
    }
    forall a, b | DiagnosticLeq(a, b) ensures NotAfter(a, b) {
      StringLeqTotal(a.code, a.code);
      StringLeqTotal(a.targetID, a.targetID);
    }
  }

  lemma {:induction false} DiagnosticTransitive(a: Diagnostic, b: Diagnostic, c: Diagnostic)
    requires DiagnosticLeq(a, b) && DiagnosticLeq(b, c)
    ensures DiagnosticLeq(a, c)
  {
    hide StringLeq;
    if a.code != b.code {
      if b.code != c.code { StringLeqTransitive(a.code, b.code, c.code); }
      if a.code == c.code { StringLeqAntisymmetric(a.code, b.code); }
    } else if a.code == c.code {
      if a.targetID != b.targetID {
        if b.targetID != c.targetID { StringLeqTransitive(a.targetID, b.targetID, c.targetID); }
        if a.targetID == c.targetID { StringLeqAntisymmetric(a.targetID, b.targetID); }
      } else if a.targetID == c.targetID {
        StringLeqTransitive(a.field, b.field, c.field);
      }
    }
  }

  lemma {:induction false} KeyOrder()
    ensures TotalPreorder(KeyLeq)
  {
    forall a, b ensures KeyLeq(a, b) || KeyLeq(b, a) { StringLeqTotal(a.canonicalKey, b.canonicalKey); }
    forall a, b, c | KeyLeq(a, b) && KeyLeq(b, c) ensures KeyLeq(a, c) {
      StringLeqTransitive(a.canonicalKey, b.canonicalKey, c.canonicalKey);
    }
  }

  // An item's lists hold the queries, the link and the diagnostics of all classes, a report for each name
  // that is not controlled and one for a service that is not, and nothing else, in their orders.
  lemma {:induction false} ItemsAreWhole(item: Item, raw: string, policy: Policy)
    ensures var p := PlanItem(item, raw, policy);
            var service, interval := if ValidServiceValue(raw) then raw else "", policy.rateInterval;
            var rate, ratio := PlanRate(item, service, interval), PlanErrorRatio(item, service, interval);
            var tail, current := PlanPercentiles(item, service, interval), PlanInFlight(item, service);
            var trace := PlanTraceLink(item, service, policy);
            && multiset(p.plans) == multiset(rate.plans) + multiset(ratio.plans) + multiset(tail.plans)
                                    + multiset(current.plans)
            && (forall i, j :: 0 <= i < j < |p.plans| ==> StringLeq(p.plans[i].canonicalKey, p.plans[j].canonicalKey))
            && p.links == trace.links
            && multiset(p.diagnostics) ==
               (if ValidServiceValue(raw) then multiset{}
                else multiset{Diagnostic("DASHBOARD_SENSITIVE_VALUE_DROPPED", "service", "service.name")})
               + multiset(DroppedNames(item, item.metrics)) + multiset(rate.diagnostics) + multiset(ratio.diagnostics)
               + multiset(tail.diagnostics) + multiset(current.diagnostics) + multiset(trace.diagnostics)
            && (forall i, j :: 0 <= i < j < |p.diagnostics| ==> NotAfter(p.diagnostics[i], p.diagnostics[j]))
  {
    hide SortBy, PlanRate, PlanErrorRatio, PlanPercentiles, PlanInFlight, ValidServiceValue, DroppedNames;
    hide ValidSpanName, TraceLinkOf, DiagnosticLeq, NotAfter, TotalPreorder;
    KeyOrder();
    DiagnosticOrder();
    SortBySorted(KeyLeq, UnsortedPlans(item, ValidatedService(raw), policy.rateInterval));
    SortBySorted(DiagnosticLeq, UnsortedDiagnostics(item, raw, policy));
    AtMostOneLink(PlanTraceLink(item, ValidatedService(raw), policy).links);
  }

  lemma {:induction false} AtMostOneLink(links: seq<TraceLinkPlan>)
    requires |links| <= 1
    ensures SortBy(LinkLeq, links) == links
  {
  }
}
