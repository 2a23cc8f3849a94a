/** The typed query tree of dashboard/query/types.go. */
module QueryTypes {
  import opened Wrappers

  // Go's MatcherOp is an int; `OtherOp` stands for a value outside the three constants.
  datatype MatcherOp = MatchEqual | MatchNotEqual | MatchRegex | OtherOp(code: int)

  datatype LabelMatcher = LabelMatcher(name: string, op: MatcherOp, value: string)

  datatype Selector = Selector(metricName: string, matchers: seq<LabelMatcher>)

  // `NoExpr` is a nil Expression interface value.
  datatype Expr =
    | NoExpr
    | Select(selector: Selector)
    | Rate(selector: Selector, interval: string)
    | Sum(groups: seq<string>, expr: Expr)
    | Quantile(quantile: real, expr: Expr)
    | Divide(left: Expr, right: Expr)
    | Scalar(value: real)

  const ErrorStatusPattern := "5[0-9]{2}|error"
  const BucketBoundary := "+Inf"
  const DefaultRateInterval := "$__rate_interval"

  // The parts of package strconv the printer and the parser call: FormatFloat('g', -1, 64),
  // ParseFloat and, inside Quote, IsPrint for the runes outside ASCII.
  datatype Strconv = Strconv(
    formatFloat: real -> string,
    parseFloat: string -> Option<real>,
    isPrint: char -> bool)
}
