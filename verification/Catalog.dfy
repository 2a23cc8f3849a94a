/** The parts of the catalog (dashboard/catalog.go) and of a query plan
    (dashboard/query/types.go) that the planner and the validators read. */
module Catalog {
  import opened QueryTypes

  datatype SignalReference = SignalReference(
    planID: string, name: string, typ: string, unit: string, attributes: seq<string>)

  datatype Capabilities = Capabilities(
    rate: bool, errorRatio: bool, percentiles: bool, inFlight: bool, traceLink: bool)

  datatype Item = Item(
    id: string, category: string, operation: string,
    metrics: seq<SignalReference>, spans: seq<SignalReference>, capabilities: Capabilities)

  datatype QueryKind = RateKind | ErrorRatioKind | PercentileKind | InFlightKind | BreakdownKind | TopFailingKind

  function KindText(kind: QueryKind): string
  {
    match kind
    case RateKind => "rate"
    case ErrorRatioKind => "error_ratio"
    case PercentileKind => "percentile"
    case InFlightKind => "in_flight"
    case BreakdownKind => "operation_breakdown"
    case TopFailingKind => "top_failing"
  }

  datatype QueryPlan = QueryPlan(
    canonicalKey: string, kind: QueryKind, itemID: string, purpose: string, planIDs: seq<string>, expr: Expr)

  datatype TraceLinkPlan = TraceLinkPlan(
    canonicalKey: string, itemID: string, planIDs: seq<string>, datasource: string, serviceName: string,
    operation: string, spanName: string)

  datatype Policy = Policy(rateInterval: string, includeTraceLinks: bool, datasource: string)

  const FixedQuantiles: seq<real> := [0.50, 0.95, 0.99]

  // The item's metrics have different names.
  ghost predicate DistinctNames(metrics: seq<SignalReference>)
  {
    forall i, j :: 0 <= i < j < |metrics| ==> metrics[i].name != metrics[j].name
  }
}
