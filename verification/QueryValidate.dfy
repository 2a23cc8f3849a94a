/** dashboard/query/validate.go: the rules a generated query must meet. */
module QueryValidate {
  import opened Decimals
  import opened QueryTypes
  import opened QueryNames
  import opened SelectorDomain
  import opened Catalog

  // One value per message of the validator.
  datatype Rule =
    | UndeclaredPlanID | BareSelector | TooDeep | UnsupportedNode | BareScalar
    | MetricNameUncontrolled | MetricUndeclared | IntervalNotFixed | RateOnGauge | GroupOutsideVocabulary
    | QuantileNotFixed | DomainsDiffer | LabelOutsideVocabulary | BucketNotFixed | RawRegex | ValueUncontrolled
    | StatusNotAllowed | StatusInFlight | WrongService | WrongOperation | LabelUndeclared
    | NoItems | NoSelector | SchemaDiffers | PlanIDsDoNotCover | OperationFiltered

  datatype Violation = Violation(field: string, rule: Rule)

  datatype Context = Context(
    types: map<string, string>, labels: map<string, seq<string>>, operation: string, service: string,
    errorRatio: bool, inFlight: bool, statusAllowed: bool)

  // Reading a Go map gives the zero value for a missing key.
  function TypeOf(c: Context, name: string): string
  {
    if name in c.types then c.types[name] else ""
  }

  function LabelsOf(c: Context, name: string): seq<string>
  {
    if name in c.labels then c.labels[name] else []
  }

  // ---- The violations of an expression, in order ----

  function Flag(broken: bool, field: string, rule: Rule): seq<Violation>
  {
    if broken then [Violation(field, rule)] else []
  }

  function MatcherViolations(c: Context, metric: string, m: LabelMatcher, field: string): seq<Violation>
  {
    Flag(!InVocabulary(m.name), field + ".label", LabelOutsideVocabulary)
    + if m.name == "le" then Flag(!m.op.MatchNotEqual? || m.value != BucketBoundary, field, BucketNotFixed)
      else ValueViolations(c, metric, m, field)
  }

  // Any label but `le`.
  function ValueViolations(c: Context, metric: string, m: LabelMatcher, field: string): seq<Violation>
  {
    (if m.op.MatchRegex? then Flag(m.value != ErrorStatusPattern, field + ".value", RawRegex)
     else Flag(!ValidServiceValue(m.value), field + ".value", ValueUncontrolled))
    + Flag(m.name == "status" && !c.statusAllowed, field, StatusNotAllowed)
    + Flag(c.inFlight && m.name == "status", field, StatusInFlight)
    + Flag(m.name == "service" && m.op.MatchEqual? && m.value != c.service, field + ".value", WrongService)
    + Flag(m.name == "operation" && m.op.MatchEqual? && c.operation != "" && m.value != c.operation,
           field + ".value", WrongOperation)
    + Flag(LabelsOf(c, metric) != [] && m.name !in LabelsOf(c, metric), field + ".label", LabelUndeclared)
  }

  // The first `count` matchers of a selector.
  function MatchersViolations(c: Context, s: Selector, count: nat, field: string): seq<Violation>
    requires count <= |s.matchers|
  {
    if count == 0 then []
    else MatchersViolations(c, s, count - 1, field)
         + MatcherViolations(c, s.metricName, s.matchers[count - 1], field + ".matchers[" + Decimal(count - 1) + "]")
  }

  function SelectorViolations(c: Context, s: Selector, field: string): seq<Violation>
  {
    if !ValidMetricName(s.metricName) then [Violation(field + ".metric", MetricNameUncontrolled)]
    else Flag(TypeOf(c, s.metricName) == "", field + ".metric", MetricUndeclared)
         + MatchersViolations(c, s, |s.matchers|, field)
  }

  function GroupViolations(groups: seq<string>, field: string): seq<Violation>
  {
    if groups == [] then []
    else GroupViolations(groups[..|groups| - 1], field)
         + Flag(!InVocabulary(groups[|groups| - 1]), field + ".by", GroupOutsideVocabulary)
  }

  function CollectSelectors(e: Expr): seq<Selector>
  {
    match e
    case Select(s) => [s]
    case Rate(s, _) => [s]
    case Sum(_, e) => CollectSelectors(e)
    case Quantile(_, e) => CollectSelectors(e)
    case Divide(l, r) => CollectSelectors(l) + CollectSelectors(r)
    case _ => []
  }

  function RateViolations(c: Context, s: Selector, interval: string, field: string): seq<Violation>
  {
    SelectorViolations(c, s, field + ".selector")
    + Flag(interval != DefaultRateInterval, field + ".interval", IntervalNotFixed)
    + Flag(TypeOf(c, s.metricName) == "gauge", field, RateOnGauge)
  }

  function DomainViolations(c: Context, l: Expr, r: Expr, field: string): seq<Violation>
  {
    if c.errorRatio then Flag(!SameDomain(CollectSelectors(l), CollectSelectors(r)), field, DomainsDiffer) else []
  }

  // The context of a division's left side.
  function NumeratorContext(c: Context): Context
  {
    if c.errorRatio then c.(statusAllowed := true) else c
  }

  function ExprViolations(c: Context, e: Expr, field: string, depth: nat): seq<Violation>
    decreases e
  {
    if depth > 8 then [Violation(field, TooDeep)]
    else
      match e
      case Select(s) => SelectorViolations(c, s, field)
      case Rate(s, interval) => RateViolations(c, s, interval, field)
      case Sum(groups, inner) =>
        GroupViolations(groups, field) + ExprViolations(c, inner, field + ".expr", depth + 1)
      case Quantile(q, inner) =>
        Flag(q !in FixedQuantiles, field + ".quantile", QuantileNotFixed)
        + ExprViolations(c, inner, field + ".expr", depth + 1)
      case Divide(l, r) =>
        DomainViolations(c, l, r, field)
        + ExprViolations(NumeratorContext(c), l, field + ".left", depth + 1)
        + ExprViolations(c, r, field + ".right", depth + 1)
      case Scalar(_) => Flag(field == "expr", field, BareScalar)
      case NoExpr => [Violation(field, UnsupportedNode)]
  }

  function TypesOf(metrics: seq<SignalReference>): map<string, string>
  {
    if metrics == [] then map[]
    else var last := metrics[|metrics| - 1]; TypesOf(metrics[..|metrics| - 1])[last.name := last.typ]
  }

  function SchemasOf(metrics: seq<SignalReference>): map<string, seq<string>>
  {
    if metrics == [] then map[]
    else var last := metrics[|metrics| - 1]; SchemasOf(metrics[..|metrics| - 1])[last.name := last.attributes]
  }

  function PlanIDsOf(refs: seq<SignalReference>): set<string>
  {
    set r <- refs :: r.planID
  }

  function PlanContext(plan: QueryPlan, item: Item, service: string): Context
  {
    Context(TypesOf(item.metrics), SchemasOf(item.metrics), item.operation, service,
            plan.kind == ErrorRatioKind, plan.kind == InFlightKind, false)
  }

  predicate Traceable(plan: QueryPlan, item: Item)
  {
    forall id <- plan.planIDs :: id in PlanIDsOf(item.metrics) || id in PlanIDsOf(item.spans)
  }

  function PlanViolations(plan: QueryPlan, item: Item, service: string): seq<Violation>
  {
    if !Traceable(plan, item) then [Violation("plan_ids", UndeclaredPlanID)]
    else Flag(plan.expr.Select?, "expr", BareSelector)
         + ExprViolations(PlanContext(plan, item, service), plan.expr, "expr", 0)
  }

  // ---- The validator, which appends to one shared list ----

  lemma {:induction false} DivisionUnfolds(c: Context, l: Expr, r: Expr, field: string, depth: nat)
    requires depth <= 8
    ensures ExprViolations(c, Divide(l, r), field, depth) ==
            DomainViolations(c, l, r, field) + ExprViolations(NumeratorContext(c), l, field + ".left", depth + 1)
            + ExprViolations(c, r, field + ".right", depth + 1)
  {
  }

  lemma {:induction false} Chain<T>(x: seq<T>, a: seq<T>, b: seq<T>, c: seq<T>)
    ensures x + a + b + c == x + (a + b + c)
  {
  }

  lemma {:induction false} Regroup<T>(x: seq<T>, a: seq<T>, b: seq<T>, c: seq<T>, d: seq<T>, e: seq<T>, f: seq<T>)
    ensures x + a + b + c + d + e + f == x + (a + b + c + d + e + f)
  {
  }

  class Report {
    var violations: seq<Violation>

    constructor ()
      ensures violations == []
    {
      violations := [];
    }

    // if broken { append }
    method Check(broken: bool, field: string, rule: Rule)
      modifies this
      ensures violations == old(violations) + Flag(broken, field, rule)
    {
      if broken { violations := violations + [Violation(field, rule)]; }
    }

    method ValidateMatcher(c: Context, metric: string, m: LabelMatcher, field: string)
      modifies this
      ensures violations == old(violations) + MatcherViolations(c, metric, m, field)
    {
      hide ValidServiceValue, InVocabulary, LabelsOf, Flag, ValueViolations;
      Check(!InVocabulary(m.name), field + ".label", LabelOutsideVocabulary);
      if m.name == "le" {
        Check(!m.op.MatchNotEqual? || m.value != BucketBoundary, field, BucketNotFixed);
        return;
      }
      ValidateValue(c, metric, m, field);
    }

    method ValidateValue(c: Context, metric: string, m: LabelMatcher, field: string)
      modifies this
      ensures violations == old(violations) + ValueViolations(c, metric, m, field)
    {
      hide ValidServiceValue, InVocabulary, LabelsOf, Flag;
      ghost var before := violations;
      if m.op.MatchRegex? {
        Check(m.value != ErrorStatusPattern, field + ".value", RawRegex);
      } else {
        Check(!ValidServiceValue(m.value), field + ".value", ValueUncontrolled);
      }
      ghost var a := if m.op.MatchRegex? then Flag(m.value != ErrorStatusPattern, field + ".value", RawRegex)
                     else Flag(!ValidServiceValue(m.value), field + ".value", ValueUncontrolled);
      Check(m.name == "status" && !c.statusAllowed, field, StatusNotAllowed);
      Check(c.inFlight && m.name == "status", field, StatusInFlight);
      Check(m.name == "service" && m.op.MatchEqual? && m.value != c.service, field + ".value", WrongService);
      Check(m.name == "operation" && m.op.MatchEqual? && c.operation != "" && m.value != c.operation,
            field + ".value", WrongOperation);
      var declared := LabelsOf(c, metric);
      Check(declared != [] && m.name !in declared, field + ".label", LabelUndeclared);
      Regroup(before, a,
              Flag(m.name == "status" && !c.statusAllowed, field, StatusNotAllowed),
              Flag(c.inFlight && m.name == "status", field, StatusInFlight),
              Flag(m.name == "service" && m.op.MatchEqual? && m.value != c.service, field + ".value", WrongService),
              Flag(m.name == "operation" && m.op.MatchEqual? && c.operation != "" && m.value != c.operation,
                   field + ".value", WrongOperation),
              Flag(declared != [] && m.name !in declared, field + ".label", LabelUndeclared));
    }

    method ValidateSelector(c: Context, s: Selector, field: string)
      modifies this
      ensures violations == old(violations) + SelectorViolations(c, s, field)
    {
      hide MatcherViolations, ValidMetricName, TypeOf, Flag;
      if !ValidMetricName(s.metricName) {
        violations := violations + [Violation(field + ".metric", MetricNameUncontrolled)];
        return;
      }
      Check(TypeOf(c, s.metricName) == "", field + ".metric", MetricUndeclared);
      ghost var before := violations;
      for index := 0 to |s.matchers|
        invariant violations == before + MatchersViolations(c, s, index, field)
      {
        ValidateMatcher(c, s.metricName, s.matchers[index], field + ".matchers[" + Decimal(index) + "]");
      }
    }

    method ValidateRate(c: Context, s: Selector, interval: string, field: string)
      modifies this
      ensures violations == old(violations) + RateViolations(c, s, interval, field)
    {
      hide SelectorViolations, TypeOf, Flag;
      ValidateSelector(c, s, field + ".selector");
      Check(interval != DefaultRateInterval, field + ".interval", IntervalNotFixed);
      Check(TypeOf(c, s.metricName) == "gauge", field, RateOnGauge);
    }

    method ValidateExpression(c: Context, e: Expr, field: string, depth: nat)
      modifies this
      ensures violations == old(violations) + ExprViolations(c, e, field, depth)
      decreases e, 1
    {
      hide SelectorViolations, TypeOf, GroupViolations, Flag, RateViolations, DomainViolations, SameDomain,
          CollectSelectors;
      if depth > 8 {
        violations := violations + [Violation(field, TooDeep)];
        return;
      }
      match e
      case Select(s) => ValidateSelector(c, s, field);
      case Rate(s, interval) => ValidateRate(c, s, interval, field);
      case Sum(groups, inner) =>
        ValidateGroups(groups, field);
        ValidateExpression(c, inner, field + ".expr", depth + 1);
      case Quantile(q, inner) =>
        Check(q !in FixedQuantiles, field + ".quantile", QuantileNotFixed);
        ValidateExpression(c, inner, field + ".expr", depth + 1);
      case Divide(l, r) => ValidateDivision(c, l, r, e, field, depth);
      case Scalar(_) => Check(field == "expr", field, BareScalar);
      case NoExpr => violations := violations + [Violation(field, UnsupportedNode)];
    }

    method ValidateDivision(c: Context, l: Expr, r: Expr, ghost e: Expr, field: string, depth: nat)
      requires e == Divide(l, r) && depth <= 8
      modifies this
      ensures violations == old(violations) + ExprViolations(c, e, field, depth)
      decreases e, 0
    {
      hide SameDomain, CollectSelectors, Flag, ExprViolations, NumeratorContext;
      DivisionUnfolds(c, l, r, field, depth);
      ghost var before, domains := violations, DomainViolations(c, l, r, field);
      if c.errorRatio {
        var same := SameSelectorDomain(CollectSelectors(l), CollectSelectors(r));
        Check(!same, field, DomainsDiffer);
      }
      assert violations == before + domains;
      hide DomainViolations;
      var left := NumeratorContext(c);
      ValidateExpression(left, l, field + ".left", depth + 1);
      ValidateExpression(c, r, field + ".right", depth + 1);
      Chain(before, domains, ExprViolations(left, l, field + ".left", depth + 1),
            ExprViolations(c, r, field + ".right", depth + 1));
    }

    method ValidateGroups(groups: seq<string>, field: string)
      modifies this
      ensures violations == old(violations) + GroupViolations(groups, field)
    {
      hide InVocabulary;
      for i := 0 to |groups|
        invariant violations == old(violations) + GroupViolations(groups[..i], field)
      {
        assert groups[..i + 1][..i] == groups[..i];
        Check(!InVocabulary(groups[i]), field + ".by", GroupOutsideVocabulary);
      }
      assert groups[..|groups|] == groups;
    }
  }

  lemma {:induction false} ReadSnoc(before: seq<SignalReference>, r: SignalReference)
    ensures TypesOf(before + [r]) == TypesOf(before)[r.name := r.typ]
    ensures SchemasOf(before + [r]) == SchemasOf(before)[r.name := r.attributes]
  {
    assert (before + [r])[..|before|] == before;
  }

  lemma {:induction false} PlanIDsSnoc(before: seq<SignalReference>, r: SignalReference)
    ensures PlanIDsOf(before + [r]) == PlanIDsOf(before) + {r.planID}
  {
  }

  method ReadMetrics(metrics: seq<SignalReference>)
    returns (types: map<string, string>, labels: map<string, seq<string>>, planIDs: set<string>)
    ensures types == TypesOf(metrics) && labels == SchemasOf(metrics) && planIDs == PlanIDsOf(metrics)
  {
    types, labels, planIDs := map[], map[], {};
    assert metrics[..0] == [];
    hide TypesOf, SchemasOf, PlanIDsOf;
    for i := 0 to |metrics|
      invariant types == TypesOf(metrics[..i]) && labels == SchemasOf(metrics[..i])
      invariant planIDs == PlanIDsOf(metrics[..i])
    {
      var r := metrics[i];
      assert metrics[..i + 1] == metrics[..i] + [r];
      ReadSnoc(metrics[..i], r);
      PlanIDsSnoc(metrics[..i], r);
      types, labels, planIDs := types[r.name := r.typ], labels[r.name := r.attributes], planIDs + {r.planID};
    }
    assert metrics[..|metrics|] == metrics;
  }

  method ReadSpans(spans: seq<SignalReference>) returns (planIDs: set<string>)
    ensures planIDs == PlanIDsOf(spans)
  {
    planIDs := {};
    for i := 0 to |spans|
      invariant planIDs == PlanIDsOf(spans[..i])
    {
      assert spans[..i + 1] == spans[..i] + [spans[i]];
      planIDs := planIDs + {spans[i].planID};
    }
    assert spans[..|spans|] == spans;
  }

  method ValidatePlan(plan: QueryPlan, item: Item, service: string) returns (violations: seq<Violation>)
    ensures violations == PlanViolations(plan, item, service)
  {
    hide ExprViolations, PlanIDsOf, TypesOf, SchemasOf, Flag;
    var types, labels, metricIDs := ReadMetrics(item.metrics);
    var spanIDs := ReadSpans(item.spans);
    for i := 0 to |plan.planIDs|
      invariant forall id <- plan.planIDs[..i] :: id in metricIDs || id in spanIDs
    {
      if plan.planIDs[i] !in metricIDs && plan.planIDs[i] !in spanIDs {
        return [Violation("plan_ids", UndeclaredPlanID)];
      }
    }
    var context := Context(types, labels, item.operation, service,
                           plan.kind == ErrorRatioKind, plan.kind == InFlightKind, false);
    var report := new Report();
    report.Check(plan.expr.Select?, "expr", BareSelector);
    report.ValidateExpression(context, plan.expr, "expr", 0);
    return report.violations;
  }
}
