/** What an accepted query is: the recursive validator of QueryValidate finds nothing exactly
    when every node of the tree, taken on its own with its place in the tree, obeys the rules. */
module QueryAcceptance {
  import opened Decimals
  import opened QueryTypes
  import opened QueryNames
  import opened SelectorDomain
  import opened Catalog
  import opened QueryValidate

  // A node with its depth and whether status matchers are allowed there.
  datatype Site = Site(node: Expr, status: bool, depth: nat)

  // Every node of the tree. In an error ratio the left side of a division, and everything in
  // it, may filter by status.
  ghost function Sites(e: Expr, ratio: bool, status: bool, depth: nat): set<Site>
    decreases e
  {
    {Site(e, status, depth)} +
    match e
    case Sum(_, inner) => Sites(inner, ratio, status, depth + 1)
    case Quantile(_, inner) => Sites(inner, ratio, status, depth + 1)
    case Divide(l, r) => Sites(l, ratio, status || ratio, depth + 1) + Sites(r, ratio, status, depth + 1)
    case _ => {}
  }

  predicate MatcherFine(c: Context, status: bool, metric: string, m: LabelMatcher)
  {
    && AllowedMatcher(m)
    && (m.name == "status" ==> status && !c.inFlight)
    && (m.name == "service" && m.op.MatchEqual? ==> m.value == c.service)
    && (m.name == "operation" && m.op.MatchEqual? && c.operation != "" ==> m.value == c.operation)
    && (m.name != "le" && LabelsOf(c, metric) != [] ==> m.name in LabelsOf(c, metric))
  }

  predicate SelectorFine(c: Context, status: bool, s: Selector)
  {
    && ValidMetricName(s.metricName)
    && TypeOf(c, s.metricName) != ""
    && forall m <- s.matchers :: MatcherFine(c, status, s.metricName, m)
  }

  ghost predicate SiteFine(c: Context, site: Site)
  {
    && site.depth <= 8
    && match site.node
       case Select(s) => SelectorFine(c, site.status, s)
       case Rate(s, interval) =>
         SelectorFine(c, site.status, s) && interval == DefaultRateInterval && TypeOf(c, s.metricName) != "gauge"
       case Sum(groups, _) => forall g <- groups :: InVocabulary(g)
       case Quantile(q, _) => q in FixedQuantiles
       case Divide(l, r) => c.errorRatio ==> SameDomain(CollectSelectors(l), CollectSelectors(r))
       case Scalar(_) => site.depth != 0
       case NoExpr => false
  }

  ghost predicate EverySiteFine(c: Context, e: Expr, status: bool, depth: nat)
  {
    forall site <- Sites(e, c.errorRatio, status, depth) :: SiteFine(c, site)
  }

  // ---- The pieces ----

  lemma {:induction false} MatcherFlags(c: Context, metric: string, m: LabelMatcher, field: string)
    ensures MatcherViolations(c, metric, m, field) == [] <==> MatcherFine(c, c.statusAllowed, metric, m)
  {
    hide ValidServiceValue, LabelsOf;
  }

  lemma {:induction false} MatchersFlags(c: Context, s: Selector, count: nat, field: string)
    requires count <= |s.matchers|
    ensures MatchersViolations(c, s, count, field) == [] <==>
              forall i :: 0 <= i < count ==> MatcherFine(c, c.statusAllowed, s.metricName, s.matchers[i])
  {
    hide MatcherViolations, MatcherFine;
    if count > 0 {
      MatchersFlags(c, s, count - 1, field);
      MatcherFlags(c, s.metricName, s.matchers[count - 1], field + ".matchers[" + Decimal(count - 1) + "]");
    }
  }

  lemma {:induction false} SelectorFlags(c: Context, s: Selector, field: string)
    ensures SelectorViolations(c, s, field) == [] <==> SelectorFine(c, c.statusAllowed, s)
  {
    hide MatchersViolations, MatcherFine, ValidMetricName, TypeOf;
    MatchersFlags(c, s, |s.matchers|, field);
  }

  lemma {:induction false} GroupFlags(groups: seq<string>, field: string)
    ensures GroupViolations(groups, field) == [] <==> forall g <- groups :: InVocabulary(g)
  {
    hide InVocabulary;
    if groups != [] {
      var rest, last := groups[..|groups| - 1], groups[|groups| - 1];
      GroupFlags(rest, field);
      assert groups == rest + [last];
      assert forall g :: g in groups <==> g in rest || g == last;
    }
  }

  // ---- The whole tree ----

  lemma {:induction false} StatusOnlyMatters(c: Context, d: Context, site: Site)
    requires d == c.(statusAllowed := d.statusAllowed)
    ensures SiteFine(c, site) <==> SiteFine(d, site)
  {
    hide AllowedMatcher, SameDomain, ValidMetricName, CollectSelectors;
    match site.node
    case Select(s) => SelectorSame(c, d, site.status, s);
    case Rate(s, _) => SelectorSame(c, d, site.status, s);
    case _ =>
  }

  lemma {:induction false} SelectorSame(c: Context, d: Context, status: bool, s: Selector)
    requires d == c.(statusAllowed := d.statusAllowed)
    ensures SelectorFine(c, status, s) <==> SelectorFine(d, status, s)
  {
    hide AllowedMatcher, ValidMetricName;
    forall m | m in s.matchers ensures MatcherFine(c, status, s.metricName, m) <==>
        MatcherFine(d, status, s.metricName, m) {
    }
  }

  lemma {:induction false} NodeFlags(c: Context, e: Expr, field: string, depth: nat)
    requires field == "expr" <==> depth == 0
    requires depth <= 8 && (e.Select? || e.Rate? || e.Scalar? || e.NoExpr?)
    ensures ExprViolations(c, e, field, depth) == [] <==> SiteFine(c, Site(e, c.statusAllowed, depth))
  {
    hide SelectorViolations, SelectorFine, TypeOf;
    match e
    case Select(s) => SelectorFlags(c, s, field);
    case Rate(s, _) => SelectorFlags(c, s, field + ".selector");
    case _ =>
  }

  lemma {:induction false} NotRoot(field: string, suffix: string)
    requires |field| >= 4 && suffix != ""
    ensures field + suffix != "expr" && |field + suffix| >= 4
  {
    assert |field + suffix| > 4;
  }

  lemma {:induction false} SitesTogether(c: Context, e: Expr, status: bool, depth: nat)
    ensures EverySiteFine(c, e, status, depth) <==>
              SiteFine(c, Site(e, status, depth)) &&
              match e
              case Sum(_, inner) => EverySiteFine(c, inner, status, depth + 1)
              case Quantile(_, inner) => EverySiteFine(c, inner, status, depth + 1)
              case Divide(l, r) =>
                EverySiteFine(c, l, status || c.errorRatio, depth + 1) && EverySiteFine(c, r, status, depth + 1)
              case _ => true
  {
    hide SiteFine;
    var here := Sites(e, c.errorRatio, status, depth);
    assert Site(e, status, depth) in here;
    match e
    case Sum(_, inner) =>
      assert here == {Site(e, status, depth)} + Sites(inner, c.errorRatio, status, depth + 1);
    case Quantile(_, inner) =>
      assert here == {Site(e, status, depth)} + Sites(inner, c.errorRatio, status, depth + 1);
    case Divide(l, r) =>
      assert here == {Site(e, status, depth)} + Sites(l, c.errorRatio, status || c.errorRatio, depth + 1)
                     + Sites(r, c.errorRatio, status, depth + 1);
    case _ =>
      assert here == {Site(e, status, depth)};
  }

  lemma {:induction false} EverySiteSame(c: Context, d: Context, e: Expr, status: bool, depth: nat)
    requires d == c.(statusAllowed := d.statusAllowed)
    ensures EverySiteFine(c, e, status, depth) <==> EverySiteFine(d, e, status, depth)
  {
    hide SiteFine;
    forall site | site in Sites(e, c.errorRatio, status, depth) ensures SiteFine(c, site) <==> SiteFine(d, site) {
      StatusOnlyMatters(c, d, site);
    }
  }

  lemma {:induction false} NothingFoundMeans(c: Context, e: Expr, field: string, depth: nat)
    requires |field| >= 4 && (field == "expr" <==> depth == 0)
    ensures ExprViolations(c, e, field, depth) == [] <==> EverySiteFine(c, e, c.statusAllowed, depth)
    decreases e
  {
    hide EverySiteFine, GroupViolations, SelectorViolations, RateViolations, SelectorFine, TypeOf, SameDomain,
        CollectSelectors;
    SitesTogether(c, e, c.statusAllowed, depth);
    if depth <= 8 {
      match e
      case Sum(groups, inner) =>
        GroupFlags(groups, field);
        NotRoot(field, ".expr");
        NothingFoundMeans(c, inner, field + ".expr", depth + 1);
      case Quantile(q, inner) =>
        NotRoot(field, ".expr");
        NothingFoundMeans(c, inner, field + ".expr", depth + 1);
      case Divide(l, r) =>
        NotRoot(field, ".left");
        NotRoot(field, ".right");
        var left := NumeratorContext(c);
        DivisionUnfolds(c, l, r, field, depth);
        NothingFoundMeans(left, l, field + ".left", depth + 1);
        EverySiteSame(c, left, l, left.statusAllowed, depth + 1);
        NothingFoundMeans(c, r, field + ".right", depth + 1);
      case _ =>
        NodeFlags(c, e, field, depth);
    }
  }

  // A plan is accepted exactly when its plan IDs are the item's, it is not a bare selector, and
  // every node of its tree obeys the rules for its place.
  ghost predicate Acceptable(plan: QueryPlan, item: Item, service: string)
  {
    && Traceable(plan, item)
    && !plan.expr.Select?
    && EverySiteFine(PlanContext(plan, item, service), plan.expr, false, 0)
  }

  lemma {:induction false} AcceptedExactlyWhen(plan: QueryPlan, item: Item, service: string)
    ensures PlanViolations(plan, item, service) == [] <==> Acceptable(plan, item, service)
  {
    hide ExprViolations, EverySiteFine, Traceable;
    NothingFoundMeans(PlanContext(plan, item, service), plan.expr, "expr", 0);
  }

  // ---- The maps the rules read ----

  // The last metric of a name decides its type and labels.
  lemma {:induction false} LastDeclarationRules(metrics: seq<SignalReference>, i: nat)
    requires i < |metrics|
    requires forall j :: i < j < |metrics| ==> metrics[j].name != metrics[i].name
    ensures metrics[i].name in TypesOf(metrics) && TypesOf(metrics)[metrics[i].name] == metrics[i].typ
    ensures metrics[i].name in SchemasOf(metrics) && SchemasOf(metrics)[metrics[i].name] == metrics[i].attributes
  {
    if i < |metrics| - 1 { LastDeclarationRules(metrics[..|metrics| - 1], i); }
  }
}
