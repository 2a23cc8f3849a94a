/** dashboard/query/render.go: the printer. */
module QueryRender {
  import opened Wrappers
  import opened QueryTypes

  // ---- strconv.Quote ----

  // Runes that Quote copies unchanged.
  predicate CopiedByQuote(lib: Strconv, c: char)
  {
    if c as int < 128 then ' ' <= c <= '~' && c != '"' && c != '\\' else lib.isPrint(c)
  }

  // Every escape starts with a backslash; what follows it is not modelled further.
  function QuoteRune(lib: Strconv, c: char): string
  {
    if CopiedByQuote(lib, c) then [c]
    else if c == '"' || c == '\\' then ['\\', c]
    else "\\u"
  }

  function QuoteBody(lib: Strconv, s: string): string
  {
    if s == "" then "" else QuoteRune(lib, s[0]) + QuoteBody(lib, s[1..])
  }

  function Quote(lib: Strconv, s: string): string
  {
    "\"" + QuoteBody(lib, s) + "\""
  }

  // ---- What is written ----

  function OpText(op: MatcherOp): string
  {
    match op
    case MatchEqual => "="
    case MatchNotEqual => "!="
    case MatchRegex => "=~"
    case OtherOp(_) => ""
  }

  function MatcherText(lib: Strconv, m: LabelMatcher): string
  {
    m.name + OpText(m.op) + Quote(lib, m.value)
  }

  function MatchersText(lib: Strconv, ms: seq<LabelMatcher>): string
  {
    if ms == [] then ""
    else if |ms| == 1 then MatcherText(lib, ms[0])
    else MatcherText(lib, ms[0]) + "," + MatchersText(lib, ms[1..])
  }

  function SelectorText(lib: Strconv, s: Selector): string
  {
    if s.matchers == [] then s.metricName
    else s.metricName + "{" + MatchersText(lib, s.matchers) + "}"
  }

  function LabelsText(groups: seq<string>): string
  {
    if groups == [] then ""
    else if |groups| == 1 then groups[0]
    else groups[0] + ", " + LabelsText(groups[1..])
  }

  function GroupsText(groups: seq<string>): string
  {
    if groups == [] then "sum" else "sum" + " by (" + LabelsText(groups) + ")"
  }

  function Text(lib: Strconv, e: Expr): string
  {
    match e
    case NoExpr => ""
    case Select(s) => SelectorText(lib, s)
    case Rate(s, interval) => "rate(" + SelectorText(lib, s) + "[" + interval + "])"
    case Sum(groups, inner) => GroupsText(groups) + " (" + Text(lib, inner) + ")"
    case Quantile(q, inner) => "histogram_quantile(" + lib.formatFloat(q) + ", " + Text(lib, inner) + ")"
    case Divide(l, r) => "(" + Text(lib, l) + " / " + Text(lib, r) + ")"
    case Scalar(v) => lib.formatFloat(v)
  }

  // ---- When it is written ----

  predicate SelectorRenders(s: Selector)
  {
    s.metricName != "" && forall i :: 0 <= i < |s.matchers| ==> !s.matchers[i].op.OtherOp?
  }

  predicate Renders(e: Expr)
  {
    match e
    case NoExpr => false
    case Select(s) => SelectorRenders(s)
    case Rate(s, _) => SelectorRenders(s)
    case Sum(_, inner) => Renders(inner)
    case Quantile(_, inner) => Renders(inner)
    case Divide(l, r) => Renders(l) && Renders(r)
    case Scalar(_) => true
  }

  function RenderSpec(lib: Strconv, e: Expr): Result<string>
  {
    if Renders(e) then Ok(Text(lib, e)) else Err
  }

  // ---- The printer, writing into a shared builder ----

  class Builder {
    var text: string

    constructor ()
      ensures text == ""
    {
      text := "";
    }

    method WriteString(s: string)
      modifies this
      ensures text == old(text) + s
    {
      text := text + s;
    }
  }

  lemma {:induction false} Regroup(start: string, a: string, b: string, c: string)
    ensures start + a + b == start + (a + b)
    ensures start + a + b + c == start + (a + b + c)
  {
  }

  lemma {:induction false} Regroup5(start: string, a: string, b: string, c: string, d: string, e: string)
    ensures start + a + b + c + d + e == start + (a + b + c + d + e)
  {
    Regroup(start, a, b, c);
    Regroup(start, a + b + c, d, e);
  }

  lemma {:induction false} MatchersTextSnoc(lib: Strconv, ms: seq<LabelMatcher>, m: LabelMatcher)
    ensures MatchersText(lib, ms + [m]) ==
            MatchersText(lib, ms) + (if ms == [] then "" else ",") + MatcherText(lib, m)
  {
    if ms == [] {
    } else {
      assert (ms + [m])[0] == ms[0] && (ms + [m])[1..] == ms[1..] + [m];
      MatchersTextSnoc(lib, ms[1..], m);
    }
  }

  lemma {:induction false} LabelsTextSnoc(groups: seq<string>, group: string)
    ensures LabelsText(groups + [group]) == LabelsText(groups) + (if groups == [] then "" else ", ") + group
  {
    if groups == [] {
    } else {
      assert (groups + [group])[0] == groups[0] && (groups + [group])[1..] == groups[1..] + [group];
      LabelsTextSnoc(groups[1..], group);
    }
  }

  method RenderMatcher(lib: Strconv, builder: Builder, m: LabelMatcher) returns (ok: bool)
    modifies builder
    ensures ok == !m.op.OtherOp?
    ensures ok ==> builder.text == old(builder.text) + MatcherText(lib, m)
  {
    Regroup(builder.text, m.name, OpText(m.op), Quote(lib, m.value));
    builder.WriteString(m.name);
    match m.op {
      case MatchEqual => builder.WriteString("=");
      case MatchNotEqual => builder.WriteString("!=");
      case MatchRegex => builder.WriteString("=~");
      case OtherOp(_) => return false;
    }
    builder.WriteString(Quote(lib, m.value));
    return true;
  }

  method RenderMatchers(lib: Strconv, builder: Builder, ms: seq<LabelMatcher>) returns (ok: bool)
    modifies builder
    ensures ok <==> forall i :: 0 <= i < |ms| ==> !ms[i].op.OtherOp?
    ensures ok ==> builder.text == old(builder.text) + MatchersText(lib, ms)
  {
    ghost var start := builder.text;
    for i := 0 to |ms|
      invariant forall j :: 0 <= j < i ==> !ms[j].op.OtherOp?
      invariant builder.text == start + MatchersText(lib, ms[..i])
    {
      MatchersTextSnoc(lib, ms[..i], ms[i]);
      assert ms[..i] + [ms[i]] == ms[..i + 1];
      Regroup(start, MatchersText(lib, ms[..i]), if i == 0 then "" else ",", MatcherText(lib, ms[i]));
      if i > 0 { builder.WriteString(","); }
      var written := RenderMatcher(lib, builder, ms[i]);
      if !written { return false; }
    }
    assert ms[..|ms|] == ms;
    return true;
  }

  method RenderSelector(lib: Strconv, builder: Builder, s: Selector) returns (ok: bool)
    modifies builder
    ensures ok == SelectorRenders(s)
    ensures ok ==> builder.text == old(builder.text) + SelectorText(lib, s)
  {
    if s.metricName == "" { return false; }
    Regroup5(builder.text, s.metricName, "{", MatchersText(lib, s.matchers), "}", "");
    builder.WriteString(s.metricName);
    if |s.matchers| == 0 { return true; }
    builder.WriteString("{");
    ok := RenderMatchers(lib, builder, s.matchers);
    if !ok { return; }
    builder.WriteString("}");
  }

  method RenderLabels(builder: Builder, groups: seq<string>)
    modifies builder
    ensures builder.text == old(builder.text) + LabelsText(groups)
  {
    ghost var start := builder.text;
    for i := 0 to |groups|
      invariant builder.text == start + LabelsText(groups[..i])
    {
      LabelsTextSnoc(groups[..i], groups[i]);
      assert groups[..i] + [groups[i]] == groups[..i + 1];
      Regroup(start, LabelsText(groups[..i]), if i == 0 then "" else ", ", groups[i]);
      if i > 0 { builder.WriteString(", "); }
      builder.WriteString(groups[i]);
    }
    assert groups[..|groups|] == groups;
  }

  method RenderRate(lib: Strconv, builder: Builder, s: Selector, interval: string) returns (ok: bool)
    modifies builder
    ensures ok == SelectorRenders(s)
    ensures ok ==> builder.text == old(builder.text) + Text(lib, Rate(s, interval))
  {
    var tail := "[" + interval + "])";
    Regroup(builder.text, "rate(", SelectorText(lib, s), tail);
    builder.WriteString("rate(");
    ok := RenderSelector(lib, builder, s);
    if !ok { return; }
    builder.WriteString(tail);
    Regroup("rate(" + SelectorText(lib, s), "[", interval, "])");
  }

  method RenderGroups(builder: Builder, groups: seq<string>)
    modifies builder
    ensures builder.text == old(builder.text) + GroupsText(groups)
  {
    Regroup5(builder.text, "sum", " by (", LabelsText(groups), ")", "");
    builder.WriteString("sum");
    if |groups| > 0 {
      builder.WriteString(" by (");
      RenderLabels(builder, groups);
      builder.WriteString(")");
    }
  }

  // `opening`, an expression, a closing parenthesis.
  method RenderWrapped(lib: Strconv, builder: Builder, opening: string, inner: Expr) returns (ok: bool)
    modifies builder
    ensures ok == Renders(inner)
    ensures ok ==> builder.text == old(builder.text) + opening + Text(lib, inner) + ")"
    decreases inner, 2
  {
    builder.WriteString(opening);
    ok := RenderExpression(lib, builder, inner);
    if !ok { return; }
    builder.WriteString(")");
  }

  method RenderSum(lib: Strconv, builder: Builder, groups: seq<string>, inner: Expr) returns (ok: bool)
    modifies builder
    ensures ok == Renders(inner)
    ensures ok ==> builder.text == old(builder.text) + (GroupsText(groups) + " (" + Text(lib, inner) + ")")
    decreases inner, 3
  {
    Regroup5(builder.text, GroupsText(groups), " (", Text(lib, inner), ")", "");
    RenderGroups(builder, groups);
    ok := RenderWrapped(lib, builder, " (", inner);
  }

  method RenderQuantile(lib: Strconv, builder: Builder, q: real, inner: Expr) returns (ok: bool)
    modifies builder
    ensures ok == Renders(inner)
    ensures ok ==> builder.text == old(builder.text) + ("histogram_quantile(" + lib.formatFloat(q) + ", "
                                                           + Text(lib, inner) + ")")
    decreases inner, 3
  {
    Regroup5(builder.text, "histogram_quantile(", lib.formatFloat(q), ", ", Text(lib, inner), ")");
    builder.WriteString("histogram_quantile(");
    builder.WriteString(lib.formatFloat(q));
    ok := RenderWrapped(lib, builder, ", ", inner);
  }

  method RenderDivide(lib: Strconv, builder: Builder, l: Expr, r: Expr) returns (ok: bool)
    modifies builder
    ensures ok == (Renders(l) && Renders(r))
    ensures ok ==> builder.text == old(builder.text) + ("(" + Text(lib, l) + " / " + Text(lib, r) + ")")
    decreases Divide(l, r), 0
  {
    Regroup5(builder.text, "(", Text(lib, l), " / ", Text(lib, r), ")");
    builder.WriteString("(");
    ok := RenderExpression(lib, builder, l);
    if !ok { return; }
    ok := RenderWrapped(lib, builder, " / ", r);
  }

  method RenderExpression(lib: Strconv, builder: Builder, e: Expr) returns (ok: bool)
    modifies builder
    ensures ok == Renders(e)
    ensures ok ==> builder.text == old(builder.text) + Text(lib, e)
    decreases e, 1
  {
    match e {
      case NoExpr => return false;
      case Select(s) => ok := RenderSelector(lib, builder, s);
      case Rate(s, interval) => ok := RenderRate(lib, builder, s, interval);
      case Sum(groups, inner) => ok := RenderSum(lib, builder, groups, inner);
      case Quantile(q, inner) => ok := RenderQuantile(lib, builder, q, inner);
      case Divide(l, r) => ok := RenderDivide(lib, builder, l, r);
      case Scalar(v) =>
        builder.WriteString(lib.formatFloat(v));
        ok := true;
    }
  }

  method Render(lib: Strconv, e: Expr) returns (r: Result<string>)
    ensures r == RenderSpec(lib, e)
  {
    if e.NoExpr? { return Err; }
    var builder := new Builder();
    var ok := RenderExpression(lib, builder, e);
    if !ok { return Err; }
    assert "" + Text(lib, e) == Text(lib, e);
    return Ok(builder.text);
  }
}
