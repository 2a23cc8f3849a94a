/** What the error-ratio rules of dashboard/query/validate.go are for: the series of a
    numerator are among the series of its denominator, so a ratio of sums is at most one. */
module QueryRatio {
  import opened Ordering
  import opened QueryTypes
  import opened QueryNames
  import opened SelectorDomain
  import opened Catalog
  import opened QueryValidate
  import opened QueryAcceptance

  // ---- Which series a selector selects ----

  datatype Series = Series(metric: string, labels: map<string, string>)

  // A missing label reads as the empty string.
  function Label(series: Series, name: string): string
  {
    if name in series.labels then series.labels[name] else ""
  }

  // `regex(pattern, value)` stands for the anchored regular-expression match.
  predicate Passes(regex: (string, string) -> bool, m: LabelMatcher, series: Series)
  {
    match m.op
    case MatchEqual => Label(series, m.name) == m.value
    case MatchNotEqual => Label(series, m.name) != m.value
    case MatchRegex => regex(m.value, Label(series, m.name))
    case OtherOp(_) => false
  }

  predicate Selects(regex: (string, string) -> bool, s: Selector, series: Series)
  {
    series.metric == s.metricName && forall m <- s.matchers :: Passes(regex, m, series)
  }

  // Everything `a` selects, `b` selects.
  ghost predicate Within(regex: (string, string) -> bool, a: Selector, b: Selector)
  {
    forall series :: Selects(regex, a, series) ==> Selects(regex, b, series)
  }

  // Each of `xs` has a partner of its own among `ys`, and the partners use up `ys`.
  ghost predicate Bijection(p: seq<nat>, n: nat)
  {
    && |p| == n
    && (forall i :: 0 <= i < n ==> p[i] < n)
    && (forall i, j :: 0 <= i < j < n ==> p[i] != p[j])
  }

  ghost predicate Covers(
    regex: (string, string) -> bool, numerator: seq<Selector>, denominator: seq<Selector>, p: seq<nat>)
  {
    && |numerator| == |denominator|
    && Bijection(p, |numerator|)
    && forall i :: 0 <= i < |numerator| ==> Within(regex, numerator[i], denominator[p[i]])
  }

  // ---- Pairing ----

  function Skip(q: seq<nat>, j: nat): (r: seq<nat>)
    ensures |r| == |q|
    ensures forall i :: 0 <= i < |q| ==> r[i] == if q[i] < j then q[i] else q[i] + 1
  {
    if q == [] then [] else [if q[0] < j then q[0] else q[0] + 1] + Skip(q[1..], j)
  }

  lemma {:induction false} Restore<X>(ys: seq<X>, j: nat, q: seq<nat>)
    requires j < |ys| && Bijection(q, |ys| - 1)
    ensures var p := [j] + Skip(q, j);
            Bijection(p, |ys|) && forall i :: 0 < i < |ys| ==> ys[p[i]] == (ys[..j] + ys[j + 1..])[q[i - 1]]
  {
  }

  // Lists with the same images pair up so that partners have the same image.
  lemma {:induction false} PairUp<X, Z>(f: X -> Z, xs: seq<X>, ys: seq<X>) returns (p: seq<nat>)
    requires multiset(Apply(f, xs)) == multiset(Apply(f, ys))
    ensures |xs| == |ys| && Bijection(p, |xs|)
    ensures forall i :: 0 <= i < |xs| ==> f(xs[i]) == f(ys[p[i]])
  {
    hide Apply, Bijection;
    assert |multiset(Apply(f, xs))| == |multiset(Apply(f, ys))|;
    if xs == [] {
      p := PairNone();
      return;
    }
    var j := TakePartner(f, xs, ys);
    var rest := ys[..j] + ys[j + 1..];
    var q := PairUp(f, xs[1..], rest);
    p := [j] + Skip(q, j);
    BijectionRange(q, |xs| - 1);
    Restore(ys, j, q);
    BijectionRange(p, |xs|);
    forall i | 0 < i < |xs| ensures f(xs[i]) == f(ys[p[i]]) {
      assert xs[i] == xs[1..][i - 1] && f(xs[1..][i - 1]) == f(rest[q[i - 1]]);
    }
  }

  lemma {:induction false} PairNone() returns (p: seq<nat>)
    ensures p == [] && Bijection(p, 0)
  {
    p := [];
  }

  lemma {:induction false} BijectionRange(p: seq<nat>, n: nat)
    requires Bijection(p, n)
    ensures |p| == n && forall i :: 0 <= i < n ==> p[i] < n
  {
  }

  // ---- The sides of a division ----

  predicate NoDivision(e: Expr)
  {
    match e
    case Sum(_, inner) => NoDivision(inner)
    case Quantile(_, inner) => NoDivision(inner)
    case Divide(_, _) => false
    case _ => true
  }

  // The operators are the three the query package declares.
  predicate KnownOperators(e: Expr)
  {
    forall s <- CollectSelectors(e) :: forall m <- s.matchers :: !m.op.OtherOp?
  }

  lemma {:induction false} SelectorsFine(c: Context, e: Expr, status: bool, depth: nat)
    requires EverySiteFine(c, e, status, depth) && NoDivision(e)
    ensures forall s <- CollectSelectors(e) :: SelectorFine(c, status, s)
    decreases e
  {
    hide SelectorFine, EverySiteFine;
    SitesTogether(c, e, status, depth);
    match e
    case Sum(_, inner) => SelectorsFine(c, inner, status, depth + 1);
    case Quantile(_, inner) => SelectorsFine(c, inner, status, depth + 1);
    case _ =>
  }

  // No selector filters by status.
  predicate StatusFree(ss: seq<Selector>)
  {
    forall s <- ss :: forall m <- s.matchers :: m.name != "status"
  }

  // Outside numerators, a side without a division cannot filter by status.
  lemma {:induction false} StatusFreeWithoutRatio(c: Context, e: Expr, depth: nat)
    requires EverySiteFine(c, e, false, depth) && NoDivision(e)
    ensures StatusFree(CollectSelectors(e))
  {
    hide AllowedMatcher, ValidMetricName, EverySiteFine;
    SelectorsFine(c, e, false, depth);
    forall s, m | s in CollectSelectors(e) && m in s.matchers ensures m.name != "status" {
      assert MatcherFine(c, false, s.metricName, m);
    }
  }

  lemma {:induction false} AllStay(ms: seq<LabelMatcher>)
    requires forall m <- ms :: m.name != "status"
    ensures NonStatus(ms) == ms
  {
    if ms != [] { AllStay(ms[1..]); }
  }

  lemma {:induction false} FineIsControlled(c: Context, status: bool, s: Selector)
    requires SelectorFine(c, status, s) && forall m <- s.matchers :: !m.op.OtherOp?
    ensures ControlledSelector(s)
  {
    hide AllowedMatcher, ValidMetricName;
    forall m | m in s.matchers ensures ControlledMatcher(m) { assert MatcherFine(c, status, s.metricName, m); }
  }

  lemma {:induction false} SameScopeWithin(regex: (string, string) -> bool, a: Selector, b: Selector)
    requires ScopeOf(a) == ScopeOf(b) && NonStatus(b.matchers) == b.matchers
    ensures Within(regex, a, b)
  {
    forall series | Selects(regex, a, series) ensures Selects(regex, b, series) {
      forall m | m in b.matchers ensures Passes(regex, m, series) {
        assert m in multiset(b.matchers);
        assert m in multiset(NonStatus(a.matchers));
      }
    }
  }

  lemma {:induction false} SelectorsControlled(c: Context, e: Expr, status: bool, depth: nat)
    requires EverySiteFine(c, e, status, depth) && KnownOperators(e)
    ensures forall s <- CollectSelectors(e) :: ControlledSelector(s)
    decreases e
  {
    hide SelectorFine, EverySiteFine, ControlledSelector, SameDomain;
    SitesTogether(c, e, status, depth);
    match e
    case Select(s) => FineIsControlled(c, status, s);
    case Rate(s, _) => FineIsControlled(c, status, s);
    case Sum(_, inner) => SelectorsControlled(c, inner, status, depth + 1);
    case Quantile(_, inner) => SelectorsControlled(c, inner, status, depth + 1);
    case Divide(l, r) =>
      SelectorsControlled(c, l, status || c.errorRatio, depth + 1);
      SelectorsControlled(c, r, status, depth + 1);
    case _ =>
  }

  // Lists the validator's comparison accepts, when the denominators do not filter by status.
  lemma {:induction false} StatusFreePairs(regex: (string, string) -> bool, xs: seq<Selector>, ys: seq<Selector>)
    requires forall s <- xs :: ControlledSelector(s)
    requires forall s <- ys :: ControlledSelector(s)
    requires SameDomain(xs, ys) && StatusFree(ys)
    ensures exists p :: Covers(regex, xs, ys, p)
  {
    hide NonStatus, ControlledSelector, Within, SameDomain;
    SameDomainExactlyWhen(xs, ys);
    var p := PairUp(ScopeOf, xs, ys);
    forall i | 0 <= i < |xs| ensures Within(regex, xs[i], ys[p[i]]) {
      assert ys[p[i]] in ys;
      AllStay(ys[p[i]].matchers);
      SameScopeWithin(regex, xs[i], ys[p[i]]);
    }
    assert Covers(regex, xs, ys, p);
  }

  // Both sides of a division whose nodes are fine, whatever is nested in them.
  lemma {:induction false} SidesPaired(
    c: Context, l: Expr, r: Expr, status: bool, depth: nat, regex: (string, string) -> bool)
    requires c.errorRatio && EverySiteFine(c, Divide(l, r), status, depth)
    requires KnownOperators(Divide(l, r)) && StatusFree(CollectSelectors(r))
    ensures exists p :: Covers(regex, CollectSelectors(l), CollectSelectors(r), p)
  {
    hide EverySiteFine, ControlledSelector, SameDomain, StatusFree, Covers;
    SitesTogether(c, Divide(l, r), status, depth);
    SelectorsControlled(c, l, true, depth + 1);
    SelectorsControlled(c, r, status, depth + 1);
    StatusFreePairs(regex, CollectSelectors(l), CollectSelectors(r));
  }

  // In an accepted error ratio, at every division whose denominator does not filter by status,
  // wherever it stands and whatever is nested in it: every numerator selector has a denominator
  // selector of its own that selects all its series.
  lemma {:induction false} NumeratorsAreCovered(
    plan: QueryPlan, item: Item, service: string, site: Site, regex: (string, string) -> bool)
    requires PlanViolations(plan, item, service) == [] && plan.kind == ErrorRatioKind
    requires site in Sites(plan.expr, true, false, 0) && site.node.Divide? && KnownOperators(site.node)
    requires StatusFree(CollectSelectors(site.node.right))
    ensures exists p :: Covers(regex, CollectSelectors(site.node.left), CollectSelectors(site.node.right), p)
  {
    hide PlanViolations, Sites, SiteFine, Traceable, StatusFree;
    AcceptedExactlyWhen(plan, item, service);
    var c := PlanContext(plan, item, service);
    SitesInside(plan.expr, true, false, 0, site);
    SidesPaired(c, site.node.left, site.node.right, site.status, site.depth, regex);
  }

  // ---- What the comparison of the two sides guarantees ----

  // Whatever numerators the comparison accepts against these denominators, they are covered.
  ghost predicate CoversAllAccepted(regex: (string, string) -> bool, ys: seq<Selector>)
  {
    forall xs :: (forall s <- xs :: ControlledSelector(s)) && SameDomain(xs, ys) ==>
                   exists p :: Covers(regex, xs, ys, p)
  }

  // The selector without its status matchers.
  function Unfiltered(s: Selector): Selector { Selector(s.metricName, NonStatus(s.matchers)) }

  ghost predicate Satisfiable(regex: (string, string) -> bool, s: Selector)
  {
    exists series :: Selects(regex, s, series)
  }

  // The comparison guarantees coverage exactly when the denominators do not filter by status:
  // with a status filter among them some accepted numerators are not covered. (Denominators that
  // no series could match even without the filter are set aside; the error pattern does not match
  // an absent status.)
  lemma {:induction false} CoverageExactlyWhen(regex: (string, string) -> bool, ys: seq<Selector>)
    requires ys != [] && forall s <- ys :: ControlledSelector(s) && Satisfiable(regex, Unfiltered(s))
    requires !regex(ErrorStatusPattern, "")
    ensures CoversAllAccepted(regex, ys) <==> StatusFree(ys)
  {
    hide ControlledSelector, Satisfiable, SameDomain, Covers, NonStatus;
    if StatusFree(ys) {
      forall xs | (forall s <- xs :: ControlledSelector(s)) && SameDomain(xs, ys)
        ensures exists p :: Covers(regex, xs, ys, p)
      {
        StatusFreePairs(regex, xs, ys);
      }
    } else {
      var s, m :| s in ys && m in s.matchers && m.name == "status";
      var j :| 0 <= j < |ys| && ys[j] == s;
      var xs := Apply(Unfiltered, ys);
      UnfilteredAccepted(ys);
      forall p ensures !Covers(regex, xs, ys, p) {
        forall i | 0 <= i < |ys| ensures Satisfiable(regex, xs[i]) && StatusFree([xs[i]]) {
          assert ys[i] in ys;
          UnfilteredStatusFree(ys[i]);
        }
        NotCovered(regex, xs, ys, j, m, p);
      }
    }
  }

  lemma {:induction false} UnfilteredStatusFree(s: Selector)
    ensures StatusFree([Unfiltered(s)]) && NonStatus(Unfiltered(s).matchers) == Unfiltered(s).matchers
  {
    AllStay(NonStatus(s.matchers));
  }

  lemma {:induction false} UnfilteredAccepted(ys: seq<Selector>)
    requires ys != [] && forall s <- ys :: ControlledSelector(s)
    ensures (forall s <- Apply(Unfiltered, ys) :: ControlledSelector(s)) && SameDomain(Apply(Unfiltered, ys), ys)
  {
    hide ControlledMatcher, SameDomain, NonStatus, ValidMetricName;
    var xs := Apply(Unfiltered, ys);
    forall i | 0 <= i < |ys| ensures ControlledSelector(xs[i]) && ScopeOf(xs[i]) == ScopeOf(ys[i]) {
      assert ys[i] in ys;
      UnfilteredStatusFree(ys[i]);
      assert forall m <- xs[i].matchers :: m in ys[i].matchers;
    }
    assert Apply(ScopeOf, xs) == Apply(ScopeOf, ys);
    SameDomainExactlyWhen(xs, ys);
  }

  // The series with another status.
  function WithStatus(series: Series, status: string): Series
  {
    series.(labels := series.labels["status" := status])
  }

  // A value that a controlled status matcher turns away.
  function Refused(m: LabelMatcher): string { if m.op.MatchNotEqual? then m.value else "" }

  lemma {:induction false} StatusIsRefused(regex: (string, string) -> bool, m: LabelMatcher, series: Series)
    requires ControlledMatcher(m) && m.name == "status" && !regex(ErrorStatusPattern, "")
    ensures !Passes(regex, m, WithStatus(series, Refused(m)))
  {
  }

  lemma {:induction false} NotCovered(
    regex: (string, string) -> bool, xs: seq<Selector>, ys: seq<Selector>, j: nat, m: LabelMatcher, p: seq<nat>)
    requires |xs| == |ys| && j < |ys| && ControlledSelector(ys[j]) && m in ys[j].matchers && m.name == "status"
    requires forall i :: 0 <= i < |xs| ==> Satisfiable(regex, xs[i]) && StatusFree([xs[i]])
    requires !regex(ErrorStatusPattern, "")
    ensures !Covers(regex, xs, ys, p)
  {
    hide ControlledMatcher, Selects, StatusFree;
    if |p| == |xs| && Bijection(p, |xs|) {
      var i := Preimage(p, |xs|, j);
      var series :| Selects(regex, xs[i], series);
      var other := WithStatus(series, Refused(m));
      StatusDoesNotMatter(regex, xs[i], series, Refused(m));
      StatusIsRefused(regex, m, series);
      SomeMatcherFails(regex, ys[j], m, other);
      assert !Within(regex, xs[i], ys[p[i]]);
    }
  }

  lemma {:induction false} SomeMatcherFails(
    regex: (string, string) -> bool, s: Selector, m: LabelMatcher, series: Series)
    requires m in s.matchers && !Passes(regex, m, series)
    ensures !Selects(regex, s, series)
  {
  }

  lemma {:induction false} StatusDoesNotMatter(
    regex: (string, string) -> bool, s: Selector, series: Series, status: string)
    requires StatusFree([s]) && Selects(regex, s, series)
    ensures Selects(regex, s, WithStatus(series, status))
  {
    assert [s][0] == s && s in [s];
    forall m | m in s.matchers ensures Passes(regex, m, WithStatus(series, status)) {
      assert Label(WithStatus(series, status), m.name) == Label(series, m.name);
    }
  }

  // A bijection reaches every index.
  lemma {:induction false} Preimage(p: seq<nat>, n: nat, j: nat) returns (i: nat)
    requires Bijection(p, n) && j < n
    ensures i < n && p[i] == j
  {
    if j !in p { DifferentFit(p + [j], n); }
    i :| 0 <= i < n && p[i] == j;
  }

  // No more than `n` different numbers are below `n`.
  lemma {:induction false} DifferentFit(p: seq<nat>, n: nat)
    requires forall i :: 0 <= i < |p| ==> p[i] < n
    requires forall i, j :: 0 <= i < j < |p| ==> p[i] != p[j]
    ensures |p| <= n
  {
    if p != [] {
      assert p[0] < n;
      if i :| 0 <= i < |p| && p[i] == n - 1 {
        var rest := p[..i] + p[i + 1..];
        DifferentFit(rest, n - 1);
      } else {
        DifferentFit(p, n - 1);
      }
    }
  }

  lemma {:induction false} SitesInside(e: Expr, ratio: bool, status: bool, depth: nat, site: Site)
    requires site in Sites(e, ratio, status, depth)
    ensures Sites(site.node, ratio, site.status, site.depth) <= Sites(e, ratio, status, depth)
    decreases e
  {
    if site != Site(e, status, depth) {
      match e
      case Sum(_, inner) => SitesInside(inner, ratio, status, depth + 1, site);
      case Quantile(_, inner) => SitesInside(inner, ratio, status, depth + 1, site);
      case Divide(l, r) =>
        if site in Sites(l, ratio, status || ratio, depth + 1) {
          SitesInside(l, ratio, status || ratio, depth + 1, site);
        } else {
          SitesInside(r, ratio, status, depth + 1, site);
        }
      case _ =>
    }
  }

  // ---- Sums of rates ----

  function GroupKey(series: Series, groups: seq<string>): (key: seq<string>)
    ensures |key| == |groups|
  {
    seq(|groups|, i requires 0 <= i < |groups| => Label(series, groups[i]))
  }

  // sum by (groups) (rate(selector)) at one group, over a store of series.
  function Total(
    rate: Series -> real, regex: (string, string) -> bool, s: Selector, groups: seq<string>, key: seq<string>,
    store: seq<Series>): real
  {
    if store == [] then 0.0
    else (if Selects(regex, s, store[0]) && GroupKey(store[0], groups) == key then rate(store[0]) else 0.0)
         + Total(rate, regex, s, groups, key, store[1..])
  }

  lemma {:induction false} TotalWithin(
    rate: Series -> real, regex: (string, string) -> bool, a: Selector, b: Selector, groups: seq<string>,
    key: seq<string>, store: seq<Series>)
    requires Within(regex, a, b) && forall series :: rate(series) >= 0.0
    ensures 0.0 <= Total(rate, regex, a, groups, key, store) <= Total(rate, regex, b, groups, key, store)
  {
    if store != [] {
      TotalWithin(rate, regex, a, b, groups, key, store[1..]);
      assert Selects(regex, a, store[0]) ==> Selects(regex, b, store[0]);
    }
  }

  lemma {:induction false} RootStatusFree(plan: QueryPlan, item: Item, service: string)
    requires PlanViolations(plan, item, service) == [] && plan.kind == ErrorRatioKind
    requires plan.expr.Divide? && NoDivision(plan.expr.right)
    ensures StatusFree(CollectSelectors(plan.expr.right))
  {
    hide PlanViolations, StatusFree, Traceable, EverySiteFine, SiteFine;
    AcceptedExactlyWhen(plan, item, service);
    var c := PlanContext(plan, item, service);
    SitesTogether(c, plan.expr, false, 0);
    StatusFreeWithoutRatio(c, plan.expr.right, 1);
  }

  // Every ratio an accepted query of the planner's shape computes lies between zero and one.
  lemma {:induction false} RatioAtMostOne(
    plan: QueryPlan, item: Item, service: string, groups: seq<string>, a: Selector, b: Selector, i: string, j: string,
    rate: Series -> real, regex: (string, string) -> bool, key: seq<string>, store: seq<Series>)
    requires PlanViolations(plan, item, service) == [] && plan.kind == ErrorRatioKind
    requires plan.expr == Divide(Sum(groups, Rate(a, i)), Sum(groups, Rate(b, j))) && KnownOperators(plan.expr)
    requires forall series :: rate(series) >= 0.0
    ensures var top := Total(rate, regex, a, groups, key, store);
            var bottom := Total(rate, regex, b, groups, key, store);
            0.0 <= top <= bottom && (bottom > 0.0 ==> 0.0 <= top / bottom <= 1.0)
  {
    hide PlanViolations, Within, Selects, Total, StatusFree;
    RootStatusFree(plan, item, service);
    NumeratorsAreCovered(plan, item, service, Site(plan.expr, false, 0), regex);
    var p :| Covers(regex, CollectSelectors(plan.expr.left), CollectSelectors(plan.expr.right), p);
    assert CollectSelectors(plan.expr.left) == [a] && CollectSelectors(plan.expr.right) == [b];
    assert Within(regex, [a][0], [b][p[0]]);
    TotalWithin(rate, regex, a, b, groups, key, store);
    var top, bottom := Total(rate, regex, a, groups, key, store), Total(rate, regex, b, groups, key, store);
    if bottom > 0.0 { QuotientBound(top, bottom); }
  }

  lemma {:induction false} QuotientBound(top: real, bottom: real)
    requires 0.0 <= top <= bottom && bottom > 0.0
    ensures 0.0 <= top / bottom <= 1.0
  {
    var q := top / bottom;
    assert q * bottom == top;
    assert (1.0 - q) * bottom >= 0.0;
  }

  // ---- Why the denominator must not filter by status ----

  const Plain := Selector("m", [])
  const Failing := Selector("m", [LabelMatcher("status", MatchRegex, ErrorStatusPattern)])

  lemma {:induction false} FailingScope()
    ensures NonStatus(Failing.matchers) == [] && NonStatus(Plain.matchers) == []
    ensures ScopeOf(Failing) == ScopeOf(Plain)
    ensures ControlledSelector(Failing) && ControlledSelector(Plain)
  {
    assert Failing.matchers[1..] == [];
  }

  lemma {:induction false} SameScopes(xs: seq<Selector>, ys: seq<Selector>)
    requires xs != [] && |xs| == |ys|
    requires forall s <- xs + ys :: s == Plain || s == Failing
    ensures SameDomain(xs, ys)
  {
    hide ControlledSelector, NonStatus, SameDomain, ScopeOf;
    FailingScope();
    forall s | s in xs ensures ControlledSelector(s) { assert s in xs + ys; }
    forall s | s in ys ensures ControlledSelector(s) { assert s in xs + ys; }
    forall i | 0 <= i < |xs| ensures ScopeOf(xs[i]) == ScopeOf(ys[i]) {
      assert xs[i] in xs + ys && ys[i] in xs + ys;
    }
    assert Apply(ScopeOf, xs) == Apply(ScopeOf, ys);
    SameDomainExactlyWhen(xs, ys);
  }

  // A denominator that is itself a ratio may filter by status, so the validator accepts a query
  // with numerator series that no denominator of their own selects.
  lemma {:induction false} NestedRatioIsNotCovered(regex: (string, string) -> bool)
    requires !regex(ErrorStatusPattern, "")
    ensures var all, bad := Rate(Plain, DefaultRateInterval), Rate(Failing, DefaultRateInterval);
            var plan := QueryPlan("", ErrorRatioKind, "", "", [], Divide(Divide(all, all), Divide(bad, all)));
            var item := Item("", "", "", [SignalReference("", "m", "counter", "", ["status"])], [],
                             Capabilities(false, false, false, false, false));
            PlanViolations(plan, item, "") == [] && KnownOperators(plan.expr)
            && forall p :: !Covers(regex, CollectSelectors(plan.expr.left), CollectSelectors(plan.expr.right), p)
  {
    hide PlanViolations, SameDomain, Sites;
    var all, bad := Rate(Plain, DefaultRateInterval), Rate(Failing, DefaultRateInterval);
    var metric := SignalReference("", "m", "counter", "", ["status"]);
    var item := Item("", "", "", [metric], [], Capabilities(false, false, false, false, false));
    var l, r := Divide(all, all), Divide(bad, all);
    var plan := QueryPlan("", ErrorRatioKind, "", "", [], Divide(l, r));
    var c := PlanContext(plan, item, "");
    LastDeclarationRules([metric], 0);
    assert SelectorFine(c, true, Failing) && SelectorFine(c, true, Plain) && SelectorFine(c, false, Plain);
    SameScopes([Plain], [Plain]);
    SameScopes([Failing], [Plain]);
    SameScopes([Plain, Plain], [Failing, Plain]);
    assert EverySiteFine(c, plan.expr, false, 0) by { NestedSites(c, all, bad); }
    AcceptedExactlyWhen(plan, item, "");
    forall p ensures !Covers(regex, CollectSelectors(l), CollectSelectors(r), p) { NoCover(regex, p); }
  }

  lemma {:induction false} NestedSites(c: Context, all: Expr, bad: Expr)
    requires all == Rate(Plain, DefaultRateInterval) && bad == Rate(Failing, DefaultRateInterval)
    requires TypeOf(c, "m") == "counter" && c.errorRatio
    requires SelectorFine(c, true, Failing) && SelectorFine(c, true, Plain) && SelectorFine(c, false, Plain)
    requires SameDomain([Plain], [Plain]) && SameDomain([Failing], [Plain])
        && SameDomain([Plain, Plain], [Failing, Plain])
    ensures EverySiteFine(c, Divide(Divide(all, all), Divide(bad, all)), false, 0)
  {
    hide SameDomain, SelectorFine, EverySiteFine;
    SitesTogether(c, Divide(Divide(all, all), Divide(bad, all)), false, 0);
    SitesTogether(c, Divide(all, all), true, 1);
    SitesTogether(c, Divide(bad, all), false, 1);
    SitesTogether(c, all, true, 2);
    SitesTogether(c, bad, true, 2);
    SitesTogether(c, all, false, 2);
    assert CollectSelectors(Divide(all, all)) == [Plain, Plain];
    assert CollectSelectors(Divide(bad, all)) == [Failing, Plain];
  }

  lemma {:induction false} NoCover(regex: (string, string) -> bool, p: seq<nat>)
    requires !regex(ErrorStatusPattern, "")
    ensures !Covers(regex, [Plain, Plain], [Failing, Plain], p)
  {
    var series := Series("m", map[]);
    assert Selects(regex, Plain, series);
    assert Failing.matchers[0] in Failing.matchers && !Passes(regex, Failing.matchers[0], series);
    assert !Within(regex, Plain, Failing);
    if |p| == 2 && p[0] < 2 && p[1] < 2 && p[0] != p[1] {
      var i := if p[0] == 0 then 0 else 1;
      assert !Within(regex, [Plain, Plain][i], [Failing, Plain][p[i]]);
    }
  }
}
