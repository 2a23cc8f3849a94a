/** The target loops of dashboard/overview/queries.go and dashboard/category/kafka.go: build,
    validate, render, or fail the whole build. */
module OverviewTargets {
  import opened Wrappers
  import opened Ordering
  import opened QueryTypes
  import opened QueryRender
  import opened SelectorDomain
  import opened Catalog
  import opened QueryPlanner
  import opened QueryPlannerSafety
  import opened Families
  import opened FamilyMeaning
  import opened OverviewValidate
  import opened FamilyQueries

  datatype Target = Target(canonicalKey: string, kind: QueryKind, expr: string, planIDs: seq<string>,
      itemIDs: seq<string>)

  // What makes a family's query a target.
  predicate Passes(lib: Strconv, f: Family, plan: QueryPlan, service: string)
  {
    OverviewViolations(plan, f.items, service) == [] && RenderSpec(lib, plan.expr).Ok?
  }

  function TargetOf(lib: Strconv, f: Family, plan: QueryPlan): Target
    requires RenderSpec(lib, plan.expr).Ok?
  {
    Target(plan.canonicalKey, plan.kind, RenderSpec(lib, plan.expr).value, f.planIDs, f.itemIDs)
  }

  function Gated(families: seq<Family>, gate: FamilyCapabilities -> bool): seq<Family>
  {
    if families == [] then []
    else Gated(families[..|families| - 1], gate)
         + if gate(families[|families| - 1].capabilities) then [families[|families| - 1]] else []
  }

  method ValidatedTarget(lib: Strconv, f: Family, plan: QueryPlan, service: string) returns (r: Result<Target>)
    ensures r.Ok? <==> Passes(lib, f, plan, service)
    ensures r.Ok? ==> r.value == TargetOf(lib, f, plan)
  {
    hide OverviewViolations, RenderSpec;
    var violations := ValidateOverviewPlan(plan, f.items, service);
    if |violations| > 0 { return Err; }
    var text := Render(lib, plan.expr);
    if text.Err? { return Err; }
    return Ok(Target(plan.canonicalKey, plan.kind, text.value, f.planIDs, f.itemIDs));
  }

  // One target per family behind the gate, in order; an error exactly when one of them fails.
  method FamilyTargets(
    lib: Strconv, families: seq<Family>, gate: FamilyCapabilities -> bool, build: Family -> QueryPlan,
    service: string)
    returns (r: Result<seq<Target>>)
    ensures r.Ok? <==> forall f <- Gated(families, gate) :: Passes(lib, f, build(f), service)
    ensures r.Ok? ==> var gated := Gated(families, gate);
              |r.value| == |gated| && forall i :: 0 <= i < |gated| ==>
                  r.value[i] == TargetOf(lib, gated[i], build(gated[i]))
  {
    hide OverviewViolations, RenderSpec, Passes;
    var targets: seq<Target> := [];
    for i := 0 to |families|
      invariant var gated := Gated(families[..i], gate);
                && (forall f <- gated :: Passes(lib, f, build(f), service) && RenderSpec(lib, build(f).expr).Ok?)
                && |targets| == |gated|
                && (forall j :: 0 <= j < |gated| ==> targets[j] == TargetOf(lib, gated[j], build(gated[j])))
    {
      var f := families[i];
      GatedStep(families, gate, i);
      if !gate(f.capabilities) { continue; }
      var target := ValidatedTarget(lib, f, build(f), service);
      if target.Err? {
        GatedPrefix(families, gate, i + 1);
        assert f in Gated(families[..i + 1], gate);
        return Err;
      }
      PassesRenders(lib, f, build(f), service);
      targets := targets + [target.value];
    }
    assert families[..|families|] == families;
    return Ok(targets);
  }

  lemma {:induction false} PassesRenders(lib: Strconv, f: Family, plan: QueryPlan, service: string)
    requires Passes(lib, f, plan, service)
    ensures RenderSpec(lib, plan.expr).Ok?
  {
  }

  lemma {:induction false} GatedStep(families: seq<Family>, gate: FamilyCapabilities -> bool, i: nat)
    requires i < |families|
    ensures Gated(families[..i + 1], gate) ==
            Gated(families[..i], gate) + if gate(families[i].capabilities) then [families[i]] else []
  {
    assert families[..i + 1][..i] == families[..i];
  }

  lemma {:induction false} GatedPrefix(families: seq<Family>, gate: FamilyCapabilities -> bool, i: nat)
    requires i <= |families|
    ensures forall f <- Gated(families[..i], gate) :: f in Gated(families, gate)
    decreases |families| - i
  {
    if i < |families| {
      GatedStep(families, gate, i);
      GatedPrefix(families, gate, i + 1);
    } else {
      assert families[..i] == families;
    }
  }

  lemma {:induction false} GatedMembers(families: seq<Family>, gate: FamilyCapabilities -> bool)
    ensures forall f <- Gated(families, gate) :: f in families && gate(f.capabilities)
  {
    if families != [] {
      var rest, last := families[..|families| - 1], families[|families| - 1];
      GatedMembers(rest, gate);
      assert families == rest + [last];
      assert forall f <- rest :: f in families;
    }
  }

  // ---- The build does not fail ----

  lemma {:induction false} BuiltRenders(f: Family, service: string, interval: string, plan: QueryPlan)
    requires BuiltFromFamily(f, service, interval, plan) && f.name != ""
    ensures Renders(plan.expr)
  {
    hide FamilySelector;
    FamilySelectorRenders(f, service, []);
    FamilySelectorRenders(f, service, [StatusMatcher]);
    FamilySelectorRenders(f, service, [BucketMatcher]);
    match plan.kind
    case ErrorRatioKind =>
      assert Renders(plan.expr.left.expr) && Renders(plan.expr.left);
      assert Renders(plan.expr.right.expr) && Renders(plan.expr.right);
    case PercentileKind =>
      assert Renders(plan.expr.expr.expr) && Renders(plan.expr.expr);
    case _ =>
  }

  lemma {:induction false} FamilySelectorRenders(f: Family, service: string, extra: seq<LabelMatcher>)
    requires f.name != "" && forall m <- extra :: !m.op.OtherOp?
    ensures SelectorRenders(FamilySelector(f, service, extra))
  {
    hide MatcherLeq, SortBy;
    var ms := FamilyMatchers(f, service, extra);
    SameMembers(MatcherLeq, ms);
    var sorted := SortBy(MatcherLeq, ms);
    forall m | m in ms ensures !m.op.OtherOp? {
      if m !in extra { assert m == ServiceMatcher(service); }
    }
    forall i | 0 <= i < |sorted| ensures !sorted[i].op.OtherOp? { assert sorted[i] in sorted; }
  }

  // On the families of a catalog, under the fixed interval and the validated service name, no
  // gated builder ever fails: each of its families becomes a target.
  lemma {:induction false} NoTargetFails(
    lib: Strconv, items: seq<Item>, families: seq<Family>, raw: string, gate: FamilyCapabilities -> bool,
    build: Family -> QueryPlan)
    requires PlainCatalog(items) && forall item <- items :: OrderlyItem(item)
    requires FamiliesOf(Table(Entries(items)), families)
    requires forall f: Family :: gate(f.capabilities) ==>
        BuiltFromFamily(f, ValidatedService(raw), DefaultRateInterval, build(f))
    ensures forall f <- Gated(families, gate) :: Passes(lib, f, build(f), ValidatedService(raw))
  {
    hide PlainCatalog, OrderlyItem, FamiliesOf, BuiltFromFamily, OverviewViolations, ListsExactly,
        CapabilitiesFrom, Renders, Text;
    var service := ValidatedService(raw);
    GatedMembers(families, gate);
    FamiliesPartition(items, families);
    forall f | f in Gated(families, gate) ensures Passes(lib, f, build(f), service) {
      FamilyQueriesPass(items, families, f, raw, DefaultRateInterval, build(f));
      BuiltRenders(f, service, DefaultRateInterval, build(f));
    }
  }
}
