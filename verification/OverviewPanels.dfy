/** The panels of dashboard/overview/queries.go and the family panels of dashboard/category/kafka.go:
    the query of each panel, and when planning them fails. */
module OverviewPanels {
  import opened Wrappers
  import opened Catalog
  import opened QueryTypes
  import opened QueryPlanner
  import opened Families
  import opened FamilyMeaning
  import opened FamilyQueries
  import opened OverviewTargets

  const MaxOverviewQueries := 30

  datatype PanelClass = RequestRate | ErrorRatio | Percentile(q: real) | InFlight | TopFailing

  const OverviewClasses :=
    [RequestRate, ErrorRatio, Percentile(0.50), Percentile(0.95), Percentile(0.99), InFlight, TopFailing]

  const KafkaClasses := [RequestRate, ErrorRatio, Percentile(0.50), Percentile(0.95), Percentile(0.99)]

  function QuantilePurpose(q: real): string
  {
    if q == 0.50 then "p50" else if q == 0.95 then "p95" else "p99"
  }

  function PanelPurpose(c: PanelClass): string
  {
    match c
    case RequestRate => "requests_rate"
    case ErrorRatio => "error_ratio"
    case Percentile(q) => QuantilePurpose(q)
    case InFlight => "in_flight"
    case TopFailing => "top_failing"
  }

  function QueryPurpose(c: PanelClass): string { if c.RequestRate? then "rate" else PanelPurpose(c) }

  function KindOf(c: PanelClass): QueryKind
  {
    match c
    case RequestRate => RateKind
    case ErrorRatio => ErrorRatioKind
    case Percentile(_) => PercentileKind
    case InFlight => InFlightKind
    case TopFailing => TopFailingKind
  }

  function ExprOf(c: PanelClass, f: Family, service: string, interval: string): Expr
  {
    match c
    case RequestRate => RateExpr(f, service, interval)
    case ErrorRatio => ErrorRatioExpr(f, service, interval)
    case Percentile(q) => PercentileExpr(f, service, interval, q)
    case InFlight => InFlightExpr(f, service)
    case TopFailing => TopFailingExpr(f, service, interval)
  }

  predicate Allows(c: PanelClass, caps: FamilyCapabilities)
  {
    match c
    case RequestRate => caps.rate
    case ErrorRatio => caps.errorRatio
    case Percentile(_) => caps.percentiles
    case InFlight => caps.inFlight
    case TopFailing => caps.errorRatio
  }

  // The overview names a query by its kind, the Kafka row by its purpose.
  function OverviewQuery(c: PanelClass, f: Family, service: string, interval: string): QueryPlan
  {
    QueryPlan("query:" + KindText(KindOf(c)) + ":overview:" + f.key, KindOf(c), "overview", QueryPurpose(c), f.planIDs,
              ExprOf(c, f, service, interval))
  }

  function KafkaQuery(c: PanelClass, f: Family, service: string, interval: string): QueryPlan
  {
    QueryPlan("query:" + QueryPurpose(c) + ":kafka:" + f.key, KindOf(c), "kafka:" + f.key, QueryPurpose(c), f.planIDs,
              ExprOf(c, f, service, interval))
  }

  function Gate(c: PanelClass): FamilyCapabilities -> bool { caps => Allows(c, caps) }

  function Builder(c: PanelClass, service: string, interval: string): Family -> QueryPlan
  {
    f => OverviewQuery(c, f, service, interval)
  }

  // ---- The panels ----

  datatype PanelSpec = PanelSpec(purpose: string, targets: seq<Target>)

  // No target of the panel fails.
  ghost predicate ClassPasses(lib: Strconv, families: seq<Family>, c: PanelClass, service: string, interval: string)
  {
    forall f <- Gated(families, Gate(c)) :: Passes(lib, f, OverviewQuery(c, f, service, interval), service)
  }

  // One target for each family behind the gate, in order.
  ghost predicate HasTargets(
    lib: Strconv, families: seq<Family>, c: PanelClass, service: string, interval: string, spec: PanelSpec)
  {
    var gated := Gated(families, Gate(c));
    && spec.purpose == PanelPurpose(c) && |spec.targets| == |gated|
    && forall i :: 0 <= i < |gated| ==>
         && Passes(lib, gated[i], OverviewQuery(c, gated[i], service, interval), service)
         && spec.targets[i] == TargetOf(lib, gated[i], OverviewQuery(c, gated[i], service, interval))
  }

  method Spec(lib: Strconv, families: seq<Family>, c: PanelClass, service: string, interval: string)
    returns (r: Result<PanelSpec>)
    ensures r.Ok? <==> ClassPasses(lib, families, c, service, interval)
    ensures r.Ok? ==> HasTargets(lib, families, c, service, interval, r.value)
  {
    hide Passes, TargetOf, OverviewQuery, Gated;
    var targets := FamilyTargets(lib, families, Gate(c), Builder(c, service, interval), service);
    if targets.Err? { return Err; }
    assert forall f: Family :: Builder(c, service, interval)(f) == OverviewQuery(c, f, service, interval);
    return Ok(PanelSpec(PanelPurpose(c), targets.value));
  }

  method Specs(lib: Strconv, families: seq<Family>, service: string, interval: string)
    returns (r: Result<seq<PanelSpec>>)
    ensures r.Ok? <==> forall c <- OverviewClasses :: ClassPasses(lib, families, c, service, interval)
    ensures r.Ok? ==> |r.value| == |OverviewClasses|
    ensures r.Ok? ==> forall i :: 0 <= i < |OverviewClasses| ==>
              HasTargets(lib, families, OverviewClasses[i], service, interval, r.value[i])
  {
    hide ClassPasses, HasTargets;
    assert OverviewClasses[0] == RequestRate && OverviewClasses[1] == ErrorRatio;
    assert OverviewClasses[2] == Percentile(0.50) && OverviewClasses[3] == Percentile(0.95);
    assert OverviewClasses[4] == Percentile(0.99) && OverviewClasses[5] == InFlight && OverviewClasses[6] == TopFailing;
    var rate := Spec(lib, families, RequestRate, service, interval);
    if rate.Err? { return Err; }
    var errorRatio := Spec(lib, families, ErrorRatio, service, interval);
    if errorRatio.Err? { return Err; }
    var p50 := Spec(lib, families, Percentile(0.50), service, interval);
    if p50.Err? { return Err; }
    var p95 := Spec(lib, families, Percentile(0.95), service, interval);
    if p95.Err? { return Err; }
    var p99 := Spec(lib, families, Percentile(0.99), service, interval);
    if p99.Err? { return Err; }
    var inFlight := Spec(lib, families, InFlight, service, interval);
    if inFlight.Err? { return Err; }
    var topFailing := Spec(lib, families, TopFailing, service, interval);
    if topFailing.Err? { return Err; }
    return Ok([rate.value, errorRatio.value, p50.value, p95.value, p99.value, inFlight.value, topFailing.value]);
  }

  function QueryCount(families: seq<Family>, classes: seq<PanelClass>): nat
  {
    if classes == [] then 0
    else QueryCount(families, classes[..|classes| - 1]) + |Gated(families, Gate(classes[|classes| - 1]))|
  }

  // The classes with some family, or those with none, in order.
  function ClassesWith(families: seq<Family>, classes: seq<PanelClass>, some: bool): seq<PanelClass>
  {
    if classes == [] then []
    else
      var last := classes[|classes| - 1];
      ClassesWith(families, classes[..|classes| - 1], some)
      + if (Gated(families, Gate(last)) != []) == some then [last] else []
  }

  // The classes' panels, one each.
  ghost predicate ArePanels(
    lib: Strconv, families: seq<Family>, classes: seq<PanelClass>, service: string, interval: string,
    panels: seq<PanelSpec>)
  {
    && |panels| == |classes|
    && forall i :: 0 <= i < |classes| ==> HasTargets(lib, families, classes[i], service, interval, panels[i])
  }

  // The panels to show, and the purposes of those left out. Without items there is no panel.
  method Panels(lib: Strconv, families: seq<Family>, hasItems: bool, service: string, interval: string)
    returns (r: Result<seq<PanelSpec>>, missing: seq<string>)
    ensures r.Ok? <==>
              || !hasItems
              || (&& (forall c <- OverviewClasses :: ClassPasses(lib, families, c, service, interval))
                  && QueryCount(families, OverviewClasses) <= MaxOverviewQueries)
    ensures !hasItems ==> r == Ok([]) && missing == []
    ensures hasItems && r.Ok? ==>
              && ArePanels(lib, families, ClassesWith(families, OverviewClasses, true), service, interval, r.value)
              && missing == Purposes(ClassesWith(families, OverviewClasses, false))
  {
    hide ClassPasses, HasTargets, Gated, OverviewClasses;
    missing := [];
    if !hasItems { return Ok([]), []; }
    var specs := Specs(lib, families, service, interval);
    if specs.Err? { return Err, []; }
    var total: nat := 0;
    for i := 0 to |specs.value|
      invariant total == QueryCount(families, OverviewClasses[..i])
    {
      assert OverviewClasses[..i + 1][..i] == OverviewClasses[..i];
      TargetCount(lib, families, OverviewClasses[i], service, interval, specs.value[i]);
      total := total + |specs.value[i].targets|;
    }
    assert OverviewClasses[..|OverviewClasses|] == OverviewClasses;
    if total > MaxOverviewQueries { return Err, []; }
    var panels: seq<PanelSpec> := [];
    for i := 0 to |specs.value|
      invariant ArePanels(lib, families, ClassesWith(families, OverviewClasses[..i], true), service, interval, panels)
      invariant missing == Purposes(ClassesWith(families, OverviewClasses[..i], false))
    {
      assert OverviewClasses[..i + 1][..i] == OverviewClasses[..i];
      TargetCount(lib, families, OverviewClasses[i], service, interval, specs.value[i]);
      if |specs.value[i].targets| == 0 {
        missing := missing + [specs.value[i].purpose];
        continue;
      }
      panels := panels + [specs.value[i]];
    }
    return Ok(panels), missing;
  }

  function Purposes(classes: seq<PanelClass>): seq<string>
  {
    seq(|classes|, i requires 0 <= i < |classes| => PanelPurpose(classes[i]))
  }

  lemma {:induction false} TargetCount(
    lib: Strconv, families: seq<Family>, c: PanelClass, service: string, interval: string, spec: PanelSpec)
    requires HasTargets(lib, families, c, service, interval, spec)
    ensures |spec.targets| == |Gated(families, Gate(c))| && spec.purpose == PanelPurpose(c)
  {
    hide Passes, TargetOf, Gated;
  }

  // ---- Nothing fails but the limit ----

  lemma {:induction false} BuilderBuilds(c: PanelClass, f: Family, service: string, interval: string)
    requires c in OverviewClasses && Allows(c, f.capabilities)
    ensures BuiltFromFamily(f, service, interval, OverviewQuery(c, f, service, interval))
    ensures BuiltFromFamily(f, service, interval, KafkaQuery(c, f, service, interval))
  {
    hide RateExpr, ErrorRatioExpr, PercentileExpr, InFlightExpr, TopFailingExpr;
    if c.Percentile? { assert c.q in FixedQuantiles; }
  }

  // On the families of a catalog no target of any overview panel fails, nor of any Kafka panel.
  lemma {:induction false} CatalogClassesPass(
    lib: Strconv, items: seq<Item>, families: seq<Family>, raw: string, c: PanelClass)
    requires PlainCatalog(items) && (forall item <- items :: OrderlyItem(item)) && c in OverviewClasses
    requires FamiliesOf(Table(Entries(items)), families)
    ensures var service := ValidatedService(raw);
            && ClassPasses(lib, families, c, service, DefaultRateInterval)
            && (c in KafkaClasses ==> forall f <- Gated(families, Gate(c)) ::
                  Passes(lib, f, KafkaQuery(c, f, service, DefaultRateInterval), service))
  {
    hide PlainCatalog, OrderlyItem, FamiliesOf, BuiltFromFamily, Passes, OverviewQuery, KafkaQuery, Gated;
    var service := ValidatedService(raw);
    forall f: Family | Allows(c, f.capabilities)
      ensures BuiltFromFamily(f, service, DefaultRateInterval, OverviewQuery(c, f, service, DefaultRateInterval))
      ensures BuiltFromFamily(f, service, DefaultRateInterval, KafkaQuery(c, f, service, DefaultRateInterval))
    {
      BuilderBuilds(c, f, service, DefaultRateInterval);
    }
    NoTargetFails(lib, items, families, raw, Gate(c), Builder(c, service, DefaultRateInterval));
    var kafka := (f: Family) => KafkaQuery(c, f, service, DefaultRateInterval);
    NoTargetFails(lib, items, families, raw, Gate(c), kafka);
    assert forall f <- Gated(families, Gate(c)) :: Passes(lib, f, kafka(f), service);
    assert forall f <- Gated(families, Gate(c)) ::
        Passes(lib, f, Builder(c, service, DefaultRateInterval)(f), service);
  }

  // Planning the overview of a catalog fails exactly above thirty queries, and so never up to ten families.
  lemma {:induction false} OverviewFailsOnlyAtTheLimit(
    lib: Strconv, items: seq<Item>, families: seq<Family>, raw: string)
    requires PlainCatalog(items) && forall item <- items :: OrderlyItem(item)
    requires FamiliesOf(Table(Entries(items)), families)
    ensures forall c <- OverviewClasses ::
              ClassPasses(lib, families, c, ValidatedService(raw), DefaultRateInterval)
    ensures QueryCount(families, OverviewClasses) <= 3 * |families|
  {
    hide PlainCatalog, OrderlyItem, FamiliesOf, ClassPasses, CapabilitiesFrom, QueryCount, ListsExactly;
    forall c | c in OverviewClasses
      ensures ClassPasses(lib, families, c, ValidatedService(raw), DefaultRateInterval)
    {
      CatalogClassesPass(lib, items, families, raw, c);
    }
    FamiliesPartition(items, families);
    AtMostThreeEach(families);
  }

  function Bit(b: bool): nat { if b then 1 else 0 }

  function CountOf(families: seq<Family>): nat
  {
    if families == [] then 0
    else
      var caps := families[|families| - 1].capabilities;
      CountOf(families[..|families| - 1])
      + Bit(caps.rate) + 2 * Bit(caps.errorRatio) + 3 * Bit(caps.percentiles) + Bit(caps.inFlight)
  }

  lemma {:induction false} CountsAgree(families: seq<Family>)
    ensures CountOf(families) ==
            |Gated(families, Gate(RequestRate))| + |Gated(families, Gate(ErrorRatio))|
            + |Gated(families, Gate(Percentile(0.50)))| + |Gated(families, Gate(Percentile(0.95)))|
            + |Gated(families, Gate(Percentile(0.99)))| + |Gated(families, Gate(InFlight))|
            + |Gated(families, Gate(TopFailing))|
  {
    if families != [] { CountsAgree(families[..|families| - 1]); }
  }

  lemma {:induction false} CountFirst(families: seq<Family>, n: nat, c: PanelClass)
    requires n < |OverviewClasses| && OverviewClasses[n] == c
    ensures QueryCount(families, OverviewClasses[..n + 1]) ==
            QueryCount(families, OverviewClasses[..n]) + |Gated(families, Gate(c))|
    ensures n == 0 ==> QueryCount(families, OverviewClasses[..n]) == 0
  {
    assert OverviewClasses[..n + 1][..n] == OverviewClasses[..n];
  }

  lemma {:induction false} AtMostThreeEach(families: seq<Family>)
    requires forall f <- families :: f.capabilities == CapabilitiesFrom(f.typ, f.attributes)
    ensures QueryCount(families, OverviewClasses) == CountOf(families) <= 3 * |families|
  {
    hide Gated, Gate, QueryCount;
    CountFirst(families, 0, RequestRate);
    CountFirst(families, 1, ErrorRatio);
    CountFirst(families, 2, Percentile(0.50));
    CountFirst(families, 3, Percentile(0.95));
    CountFirst(families, 4, Percentile(0.99));
    CountFirst(families, 5, InFlight);
    CountFirst(families, 6, TopFailing);
    assert OverviewClasses[..7] == OverviewClasses;
    CountsAgree(families);
    CountBounded(families);
  }

  lemma {:induction false} CountBounded(families: seq<Family>)
    requires forall f <- families :: f.capabilities == CapabilitiesFrom(f.typ, f.attributes)
    ensures CountOf(families) <= 3 * |families|
  {
    if families != [] {
      var rest, last := families[..|families| - 1], families[|families| - 1];
      assert last in families && forall f <- rest :: f in families;
      CountBounded(rest);
    }
  }

  // ---- The targets of one panel ----

  lemma {:induction false} GatedDistinct(families: seq<Family>, gate: FamilyCapabilities -> bool)
    requires forall i, j :: 0 <= i < j < |families| ==> families[i].key != families[j].key
    ensures forall i, j :: 0 <= i < j < |Gated(families, gate)| ==>
              Gated(families, gate)[i].key != Gated(families, gate)[j].key
  {
    if families != [] {
      var rest, last := families[..|families| - 1], families[|families| - 1];
      GatedDistinct(rest, gate);
      GatedMembers(rest, gate);
      forall f | f in Gated(rest, gate) ensures f.key != last.key {
        var i :| 0 <= i < |rest| && rest[i] == f;
        assert families[i].key != families[|families| - 1].key;
      }
    }
  }

  // Within one panel the canonical keys differ, so each target has its own letter.
  lemma {:induction false} PanelKeysDiffer(
    lib: Strconv, families: seq<Family>, c: PanelClass, service: string, interval: string, spec: PanelSpec)
    requires forall i, j :: 0 <= i < j < |families| ==> families[i].key != families[j].key
    requires HasTargets(lib, families, c, service, interval, spec)
    ensures forall i, j :: 0 <= i < j < |spec.targets| ==>
              spec.targets[i].canonicalKey != spec.targets[j].canonicalKey
  {
    hide Passes, Gated;
    var gated := Gated(families, Gate(c));
    GatedDistinct(families, Gate(c));
    var prefix := "query:" + KindText(KindOf(c)) + ":overview:";
    forall i, j | 0 <= i < j < |gated| ensures spec.targets[i].canonicalKey != spec.targets[j].canonicalKey {
      assert (prefix + gated[i].key)[|prefix|..] == gated[i].key && (prefix + gated[j].key)[|prefix|..] == gated[j].key;
    }
  }
}
