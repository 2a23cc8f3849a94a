/** Every violation of dashboard/query/validate.go, rule by rule: what is reported, at which place of the
    tree, and nothing else. */
module QueryViolations {
  import opened Decimals
  import opened QueryTypes
  import opened QueryNames
  import opened SelectorDomain
  import opened Catalog
  import opened QueryValidate
  import opened QueryAcceptance

  // A node with its depth, the field that names it, and whether status matchers are allowed there.
  datatype Place = Place(node: Expr, status: bool, depth: nat, field: string)

  // The nodes that are looked at: a branch ends at depth nine.
  ghost function Places(e: Expr, ratio: bool, status: bool, depth: nat, field: string): set<Place>
    decreases e
  {
    {Place(e, status, depth, field)} +
    if depth > 8 then {}
    else
      match e
      case Sum(_, inner) => Places(inner, ratio, status, depth + 1, field + ".expr")
      case Quantile(_, inner) => Places(inner, ratio, status, depth + 1, field + ".expr")
      case Divide(l, r) =>
        Places(l, ratio, status || ratio, depth + 1, field + ".left")
        + Places(r, ratio, status, depth + 1, field + ".right")
      case _ => {}
  }

  // What the rules read of the item and the query.
  datatype Facts = Facts(
    types: map<string, string>, labels: map<string, seq<string>>, operation: string, service: string,
    errorRatio: bool, inFlight: bool)

  function FactsOf(c: Context): Facts
  {
    Facts(c.types, c.labels, c.operation, c.service, c.errorRatio, c.inFlight)
  }

  // Rule by rule, a matcher that breaks it.
  predicate MatcherBreaks(f: Facts, status: bool, metric: string, m: LabelMatcher, rule: Rule)
  {
    match rule
    case LabelOutsideVocabulary => m.name !in ["service", "operation", "status", "le"]
    case BucketNotFixed => m.name == "le" && !(m.op.MatchNotEqual? && m.value == "+Inf")
    case RawRegex => m.name != "le" && m.op.MatchRegex? && m.value != "5[0-9]{2}|error"
    case ValueUncontrolled => m.name != "le" && !m.op.MatchRegex? && !ValidServiceValue(m.value)
    case StatusNotAllowed => m.name == "status" && !status
    case StatusInFlight => m.name == "status" && f.inFlight
    case WrongService => m.name == "service" && m.op.MatchEqual? && m.value != f.service
    case WrongOperation =>
      m.name == "operation" && m.op.MatchEqual? && f.operation != "" && m.value != f.operation
    case LabelUndeclared =>
      m.name != "le" && metric in f.labels && f.labels[metric] != [] && m.name !in f.labels[metric]
    case _ => false
  }

  // The part of the matcher a rule is about.
  function PartOf(rule: Rule): string
  {
    if rule in {LabelOutsideVocabulary, LabelUndeclared} then ".label"
    else if rule in {RawRegex, ValueUncontrolled, WrongService, WrongOperation} then ".value"
    else ""
  }

  function MatcherField(field: string, i: nat): string { field + ".matchers[" + Decimal(i) + "]" }

  ghost predicate MatcherReports(f: Facts, status: bool, s: Selector, i: nat, field: string, v: Violation)
    requires i < |s.matchers|
  {
    MatcherBreaks(f, status, s.metricName, s.matchers[i], v.rule) && v.field == MatcherField(field, i) + PartOf(v.rule)
  }

  // A metric without a controlled name is reported alone.
  ghost predicate SelectorReports(f: Facts, status: bool, s: Selector, field: string, v: Violation)
  {
    if !ValidMetricName(s.metricName) then v == Violation(field + ".metric", MetricNameUncontrolled)
    else
      || (v == Violation(field + ".metric", MetricUndeclared)
          && !(s.metricName in f.types && f.types[s.metricName] != ""))
      || exists i :: 0 <= i < |s.matchers| && MatcherReports(f, status, s, i, field, v)
  }

  ghost predicate Reports(f: Facts, p: Place, v: Violation)
  {
    if p.depth > 8 then v == Violation(p.field, TooDeep)
    else
      match p.node
      case Select(s) => SelectorReports(f, p.status, s, p.field, v)
      case Rate(s, interval) =>
        || SelectorReports(f, p.status, s, p.field + ".selector", v)
        || (v == Violation(p.field + ".interval", IntervalNotFixed) && interval != "$__rate_interval")
        || (v == Violation(p.field, RateOnGauge) && s.metricName in f.types && f.types[s.metricName] == "gauge")
      case Sum(groups, _) =>
        && v == Violation(p.field + ".by", GroupOutsideVocabulary)
        && exists g <- groups :: g !in ["service", "operation", "status", "le"]
      case Quantile(q, _) => v == Violation(p.field + ".quantile", QuantileNotFixed) && q !in {0.50, 0.95, 0.99}
      case Divide(l, r) =>
        && v == Violation(p.field, DomainsDiffer) && f.errorRatio
        && !SameDomain(CollectSelectors(l), CollectSelectors(r))
      case Scalar(_) => v == Violation(p.field, BareScalar) && p.field == "expr"
      case NoExpr => v == Violation(p.field, UnsupportedNode)
  }

  ghost predicate SomePlaceReports(f: Facts, e: Expr, status: bool, depth: nat, field: string, v: Violation)
  {
    exists p <- Places(e, f.errorRatio, status, depth, field) :: Reports(f, p, v)
  }

  // ---- Node by node ----

  lemma {:induction false} FlagHolds(broken: bool, field: string, rule: Rule, v: Violation)
    ensures v in Flag(broken, field, rule) <==> broken && v == Violation(field, rule)
  {
  }

  lemma {:induction false} Among<T>(v: T, a: seq<T>, b: seq<T>, c: seq<T>, d: seq<T>, e: seq<T>, f: seq<T>)
    ensures v in a + b + c + d + e + f <==> v in a || v in b || v in c || v in d || v in e || v in f
  {
  }

  lemma {:induction false} MatcherReported(c: Context, s: Selector, i: nat, field: string, v: Violation)
    requires i < |s.matchers|
    ensures v in MatcherViolations(c, s.metricName, s.matchers[i], MatcherField(field, i)) <==>
              MatcherReports(FactsOf(c), c.statusAllowed, s, i, field, v)
  {
    hide ValidServiceValue, MatcherField;
    var m, at := s.matchers[i], MatcherField(field, i);
    assert at + "" == at;
    if m.name != "le" { ValueReported(c, s.metricName, m, at, v); }
  }

  lemma {:induction false} ValueReported(c: Context, metric: string, m: LabelMatcher, field: string, v: Violation)
    requires m.name != "le"
    ensures v in ValueViolations(c, metric, m, field) <==>
              v.rule != LabelOutsideVocabulary && MatcherBreaks(FactsOf(c), c.statusAllowed, metric, m, v.rule)
                  && v.field == field + PartOf(v.rule)
  {
    hide ValidServiceValue, ValueViolations, LabelsOf;
    assert field + "" == field;
    ValueFlags(c, metric, m, field, v);
    assert LabelsOf(c, metric) == if metric in c.labels then c.labels[metric] else [] by { LabelsAre(c, metric); }
  }

  lemma {:induction false} LabelsAre(c: Context, metric: string)
    ensures LabelsOf(c, metric) == if metric in c.labels then c.labels[metric] else []
  {
  }

  lemma {:induction false} ValueFlags(c: Context, metric: string, m: LabelMatcher, field: string, v: Violation)
    ensures v in ValueViolations(c, metric, m, field) <==>
              || (m.op.MatchRegex? && m.value != ErrorStatusPattern && v == Violation(field + ".value", RawRegex))
              || (!m.op.MatchRegex? && !ValidServiceValue(m.value)
                  && v == Violation(field + ".value", ValueUncontrolled))
              || (m.name == "status" && !c.statusAllowed && v == Violation(field, StatusNotAllowed))
              || (m.name == "status" && c.inFlight && v == Violation(field, StatusInFlight))
              || (m.name == "service" && m.op.MatchEqual? && m.value != c.service
                  && v == Violation(field + ".value", WrongService))
              || (m.name == "operation" && m.op.MatchEqual? && c.operation != "" && m.value != c.operation
                  && v == Violation(field + ".value", WrongOperation))
              || (LabelsOf(c, metric) != [] && m.name !in LabelsOf(c, metric)
                  && v == Violation(field + ".label", LabelUndeclared))
  {
    hide ValidServiceValue, Flag, LabelsOf;
    var first := if m.op.MatchRegex? then Flag(m.value != ErrorStatusPattern, field + ".value", RawRegex)
                 else Flag(!ValidServiceValue(m.value), field + ".value", ValueUncontrolled);
    var status, service, operation := m.name == "status", m.name == "service", m.name == "operation";
    var wrongService := service && m.op.MatchEqual? && m.value != c.service;
    var wrongOperation := operation && m.op.MatchEqual? && c.operation != "" && m.value != c.operation;
    var undeclared := LabelsOf(c, metric) != [] && m.name !in LabelsOf(c, metric);
    Among(v, first, Flag(status && !c.statusAllowed, field, StatusNotAllowed),
          Flag(c.inFlight && status, field, StatusInFlight), Flag(wrongService, field + ".value", WrongService),
          Flag(wrongOperation, field + ".value", WrongOperation), Flag(undeclared, field + ".label", LabelUndeclared));
    FlagHolds(m.value != ErrorStatusPattern, field + ".value", RawRegex, v);
    FlagHolds(!ValidServiceValue(m.value), field + ".value", ValueUncontrolled, v);
    FlagHolds(status && !c.statusAllowed, field, StatusNotAllowed, v);
    FlagHolds(c.inFlight && status, field, StatusInFlight, v);
    FlagHolds(wrongService, field + ".value", WrongService, v);
    FlagHolds(wrongOperation, field + ".value", WrongOperation, v);
    FlagHolds(undeclared, field + ".label", LabelUndeclared, v);
  }

  lemma {:induction false} MatchersReported(c: Context, s: Selector, count: nat, field: string, v: Violation)
    requires count <= |s.matchers|
    ensures v in MatchersViolations(c, s, count, field) <==>
              exists i :: 0 <= i < count && MatcherReports(FactsOf(c), c.statusAllowed, s, i, field, v)
  {
    hide MatcherViolations, MatcherReports;
    if count > 0 {
      MatchersReported(c, s, count - 1, field, v);
      MatcherReported(c, s, count - 1, field, v);
    }
  }

  lemma {:induction false} SelectorReported(c: Context, s: Selector, field: string, v: Violation)
    ensures v in SelectorViolations(c, s, field) <==> SelectorReports(FactsOf(c), c.statusAllowed, s, field, v)
  {
    hide MatchersViolations, MatcherReports, ValidMetricName;
    MatchersReported(c, s, |s.matchers|, field, v);
  }

  lemma {:induction false} GroupsReported(groups: seq<string>, field: string, v: Violation)
    ensures v in GroupViolations(groups, field) <==>
              v == Violation(field + ".by", GroupOutsideVocabulary)
                  && exists g <- groups :: g !in ["service", "operation", "status", "le"]
  {
    hide Flag;
    if groups != [] {
      var rest, last := groups[..|groups| - 1], groups[|groups| - 1];
      GroupsReported(rest, field, v);
      FlagHolds(!InVocabulary(last), field + ".by", GroupOutsideVocabulary, v);
      assert InVocabulary(last) <==> last in ["service", "operation", "status", "le"];
      assert groups == rest + [last];
      assert forall g :: g in groups <==> g in rest || g == last;
    }
  }

  lemma {:induction false} PlacesTogether(f: Facts, e: Expr, status: bool, depth: nat, field: string, v: Violation)
    ensures SomePlaceReports(f, e, status, depth, field, v) <==>
              || Reports(f, Place(e, status, depth, field), v)
              || (depth <= 8
                  && match e
                     case Sum(_, inner) => SomePlaceReports(f, inner, status, depth + 1, field + ".expr", v)
                     case Quantile(_, inner) => SomePlaceReports(f, inner, status, depth + 1, field + ".expr", v)
                     case Divide(l, r) =>
                       || SomePlaceReports(f, l, status || f.errorRatio, depth + 1, field + ".left", v)
                       || SomePlaceReports(f, r, status, depth + 1, field + ".right", v)
                     case _ => false)
  {
    hide Reports;
    var here := Places(e, f.errorRatio, status, depth, field);
    assert Place(e, status, depth, field) in here;
    if depth <= 8 {
      match e
      case Sum(_, inner) =>
        assert here == {Place(e, status, depth, field)}
                       + Places(inner, f.errorRatio, status, depth + 1, field + ".expr");
      case Quantile(_, inner) =>
        assert here == {Place(e, status, depth, field)}
                       + Places(inner, f.errorRatio, status, depth + 1, field + ".expr");
      case Divide(l, r) =>
        assert here == {Place(e, status, depth, field)}
                       + Places(l, f.errorRatio, status || f.errorRatio, depth + 1, field + ".left")
                       + Places(r, f.errorRatio, status, depth + 1, field + ".right");
      case _ => assert here == {Place(e, status, depth, field)};
    }
  }

  // ---- The whole tree ----

  lemma {:induction false} LeafReported(c: Context, e: Expr, field: string, depth: nat, v: Violation)
    requires depth <= 8 && (e.Select? || e.Rate? || e.Scalar? || e.NoExpr?)
    ensures v in ExprViolations(c, e, field, depth) <==>
              Reports(FactsOf(c), Place(e, c.statusAllowed, depth, field), v)
  {
    hide SelectorViolations, SelectorReports;
    match e
    case Select(s) => SelectorReported(c, s, field, v);
    case Rate(s, interval) =>
      SelectorReported(c, s, field + ".selector", v);
      FlagHolds(interval != DefaultRateInterval, field + ".interval", IntervalNotFixed, v);
      FlagHolds(TypeOf(c, s.metricName) == "gauge", field, RateOnGauge, v);
    case _ =>
  }

  // The violations of an expression are those of its nodes, each under the field that leads to it.
  lemma {:induction false} ReportedExactly(c: Context, e: Expr, field: string, depth: nat, v: Violation)
    ensures v in ExprViolations(c, e, field, depth) <==>
              SomePlaceReports(FactsOf(c), e, c.statusAllowed, depth, field, v)
    decreases e
  {
    hide SomePlaceReports, GroupViolations, SelectorViolations, RateViolations, SelectorReports, SameDomain,
        CollectSelectors;
    PlacesTogether(FactsOf(c), e, c.statusAllowed, depth, field, v);
    if depth <= 8 {
      match e
      case Sum(groups, inner) =>
        GroupsReported(groups, field, v);
        ReportedExactly(c, inner, field + ".expr", depth + 1, v);
      case Quantile(q, inner) =>
        ReportedExactly(c, inner, field + ".expr", depth + 1, v);
      case Divide(l, r) =>
        var left := NumeratorContext(c);
        DivisionUnfolds(c, l, r, field, depth);
        ReportedExactly(left, l, field + ".left", depth + 1, v);
        ReportedExactly(c, r, field + ".right", depth + 1, v);
      case _ =>
        LeafReported(c, e, field, depth, v);
    }
  }

  // ---- The whole plan ----

  // The last declaration of a metric name.
  ghost predicate LastNamed(metrics: seq<SignalReference>, name: string, i: nat)
  {
    i < |metrics| && metrics[i].name == name && forall j :: i < j < |metrics| ==> metrics[j].name != name
  }

  // The types and labels are those of the last declarations.
  ghost predicate FactsAbout(f: Facts, plan: QueryPlan, item: Item, service: string)
  {
    && f.operation == item.operation && f.service == service
    && f.errorRatio == (plan.kind == ErrorRatioKind) && f.inFlight == (plan.kind == InFlightKind)
    && (forall name :: name in f.types <==> exists m <- item.metrics :: m.name == name)
    && (forall name :: name in f.labels <==> exists m <- item.metrics :: m.name == name)
    && (forall name, i: nat | LastNamed(item.metrics, name, i) ::
          && name in f.types && f.types[name] == item.metrics[i].typ
          && name in f.labels && f.labels[name] == item.metrics[i].attributes)
  }

  lemma {:induction false} DeclaredNames(metrics: seq<SignalReference>, name: string)
    ensures name in TypesOf(metrics) <==> exists m <- metrics :: m.name == name
    ensures name in SchemasOf(metrics) <==> exists m <- metrics :: m.name == name
  {
    if metrics != [] {
      var rest, last := metrics[..|metrics| - 1], metrics[|metrics| - 1];
      DeclaredNames(rest, name);
      assert metrics == rest + [last];
    }
  }

  lemma {:induction false} FactsAreAbout(plan: QueryPlan, item: Item, service: string)
    ensures FactsAbout(FactsOf(PlanContext(plan, item, service)), plan, item, service)
  {
    hide TypesOf, SchemasOf;
    forall name
      ensures name in TypesOf(item.metrics) <==> exists m <- item.metrics :: m.name == name
      ensures name in SchemasOf(item.metrics) <==> exists m <- item.metrics :: m.name == name
    {
      DeclaredNames(item.metrics, name);
    }
    forall name, i: nat | LastNamed(item.metrics, name, i)
      ensures name in TypesOf(item.metrics) && TypesOf(item.metrics)[name] == item.metrics[i].typ
      ensures name in SchemasOf(item.metrics) && SchemasOf(item.metrics)[name] == item.metrics[i].attributes
    {
      LastDeclarationRules(item.metrics, i);
    }
  }

  // A plan ID that no metric and no span of the item has.
  predicate Foreign(id: string, item: Item)
  {
    (forall m <- item.metrics :: m.planID != id) && (forall s <- item.spans :: s.planID != id)
  }

  // A plan with a foreign ID is reported for that alone. Any other is reported for being a bare selector and
  // for what its nodes break, under the facts about the item.
  lemma {:induction false} PlanReportedExactly(
    plan: QueryPlan, item: Item, service: string, f: Facts, v: Violation)
    requires FactsAbout(f, plan, item, service)
    ensures v in PlanViolations(plan, item, service) <==>
              if exists id <- plan.planIDs :: Foreign(id, item) then v == Violation("plan_ids", UndeclaredPlanID)
              else
                || (v == Violation("expr", BareSelector) && plan.expr.Select?)
                || SomePlaceReports(f, plan.expr, false, 0, "expr", v)
  {
    hide ExprViolations, SomePlaceReports, TypesOf, SchemasOf;
    FactsAreAbout(plan, item, service);
    FactsUnique(f, FactsOf(PlanContext(plan, item, service)), plan, item, service);
    ReportedExactly(PlanContext(plan, item, service), plan.expr, "expr", 0, v);
    hide PlanContext;
    assert forall id :: Foreign(id, item) <==> id !in PlanIDsOf(item.metrics) && id !in PlanIDsOf(item.spans);
  }

  lemma {:induction false} SomeLast(metrics: seq<SignalReference>, name: string)
    requires exists m <- metrics :: m.name == name
    ensures exists i: nat :: LastNamed(metrics, name, i)
  {
    var n := |metrics| - 1;
    if metrics[n].name == name {
      assert LastNamed(metrics, name, n);
    } else {
      assert metrics == metrics[..n] + [metrics[n]];
      SomeLast(metrics[..n], name);
      var i: nat :| LastNamed(metrics[..n], name, i);
      assert LastNamed(metrics, name, i);
    }
  }

  lemma {:induction false} FactsUnique(f: Facts, g: Facts, plan: QueryPlan, item: Item, service: string)
    requires FactsAbout(f, plan, item, service) && FactsAbout(g, plan, item, service)
    ensures f == g
  {
    hide LastNamed;
    forall name | name in f.types || name in f.labels
      ensures name in f.types && name in g.types && f.types[name] == g.types[name]
      ensures name in f.labels && name in g.labels && f.labels[name] == g.labels[name]
    {
      SomeLast(item.metrics, name);
    }
    assert f.types == g.types && f.labels == g.labels;
  }

  // ---- The selectors of a tree ----

  predicate ReadsFrom(node: Expr, s: Selector) { (node.Select? || node.Rate?) && node.selector == s }

  // The selectors a comparison collects are those of the tree's nodes.
  lemma {:induction false} CollectedExactly(e: Expr, ratio: bool, status: bool, depth: nat, s: Selector)
    ensures s in CollectSelectors(e) <==> exists site <- Sites(e, ratio, status, depth) :: ReadsFrom(site.node, s)
    decreases e
  {
    var here := Sites(e, ratio, status, depth);
    assert Site(e, status, depth) in here;
    match e
    case Sum(_, inner) =>
      CollectedExactly(inner, ratio, status, depth + 1, s);
      assert here == {Site(e, status, depth)} + Sites(inner, ratio, status, depth + 1);
    case Quantile(_, inner) =>
      CollectedExactly(inner, ratio, status, depth + 1, s);
      assert here == {Site(e, status, depth)} + Sites(inner, ratio, status, depth + 1);
    case Divide(l, r) =>
      CollectedExactly(l, ratio, status || ratio, depth + 1, s);
      CollectedExactly(r, ratio, status, depth + 1, s);
      assert here == {Site(e, status, depth)} + Sites(l, ratio, status || ratio, depth + 1)
                     + Sites(r, ratio, status, depth + 1);
    case _ =>
      assert here == {Site(e, status, depth)};
  }
}
