/** Printing and parsing as inverses: which trees survive the trip, and what the
    trip does to a text that was parsed first. */
module QueryInverse {
  import opened Wrappers
  import opened QueryTypes
  import opened QueryRender
  import opened QueryGrammar
  import opened QueryLex
  import opened QueryParse
  import opened QueryRoundTrip

  // The tokens of a printed tree read as the tree, before anything that does not extend them.
  lemma {:induction false} ReadTerm(lib: Strconv, e: Expr, rest: seq<Token>)
    requires Shape(e) && PlainNumbers(lib, e) && Closes(rest)
    ensures ParseTerm(lib, ExprTokens(lib, e) + rest) == Got(e, rest)
  {
    PrintedMeans(lib, e);
    ReadPhrase(lib, Printed(lib, e), rest);
  }

  // ---- A tree whose names and values fit comes back unchanged ----

  lemma {:induction false} PrintedParses(lib: Strconv, e: Expr)
    requires Fits(lib, e)
    ensures LexAll(Text(lib, e)) == Tokens(ExprTokens(lib, e))
    ensures ParseSpec(lib, Text(lib, e)) == Ok(e)
  {
    hide LexAll, Bounded, ParseTokens;
    LexPrinted(lib, e);
    BoundedLexes(Text(lib, e), ExprTokens(lib, e));
    ChainGroupsLeft(lib, e, []);
  }

  // ---- What the lexer lets through ----

  // Identifier tokens are identifiers, and quoted values need no quoting rules.
  ghost predicate WellLexed(ts: seq<Token>)
  {
    forall t <- ts :: (t.Ident? ==> IsIdentifier(t.name)) && (t.Quoted? ==> StringSafe(t.value))
  }

  lemma {:induction false} StepWellLexed(s: string)
    requires s != "" && Step(s).Emit? && Step(s).consumed > 0
    ensures WellLexed(Step(s).tokens)
    ensures '\\' !in s[..Step(s).consumed]
  {
    var n := Step(s).consumed;
    if s[0] == '"' {
      var body := s[1..][..n - 2];
      assert s[..n] == "\"" + body + "\"";
      assert StringSafe(body);
    } else if IsIdentStart(s[0]) {
      assert Span(IsIdentPart, s) == 1 + Span(IsIdentPart, s[1..]);
      assert s[..n][0] == s[0];
    }
  }

  lemma {:induction false} LexedWell(s: string)
    requires LexAll(s).Tokens?
    ensures WellLexed(LexAll(s).tokens)
    ensures '\\' !in s
    decreases |s|
  {
    hide Step;
    if s != "" {
      var n := Step(s).consumed;
      StepWellLexed(s);
      LexedWell(s[n..]);
      assert s == s[..n] + s[n..];
    }
  }

  // ---- What the parser builds ----

  lemma {:induction false} MatchersLexed(ms: seq<LabelMatcher>)
    requires (forall m <- ms :: !m.op.OtherOp?) && WellLexed(MatchersTokens(ms))
    ensures forall m <- ms :: IsIdentifier(m.name)
  {
    if ms != [] {
      assert MatchersTokens(ms)[0] == Ident(ms[0].name) && MatchersTokens(ms)[0] in MatchersTokens(ms);
      if |ms| > 1 {
        assert forall t <- MatchersTokens(ms[1..]) :: t in MatchersTokens(ms);
        MatchersLexed(ms[1..]);
      }
    }
  }

  lemma {:induction false} SelectorLexed(s: Selector)
    requires KnownMatchers(s) && WellLexed(SelectorTokens(s))
    ensures SelectorShape(s)
  {
    assert SelectorTokens(s)[0] in SelectorTokens(s);
    assert forall t <- MatchersTokens(s.matchers) :: t in SelectorTokens(s);
    MatchersLexed(s.matchers);
  }

  lemma {:induction false} LabelsLexed(groups: seq<string>)
    requires WellLexed(LabelsTokens(groups))
    ensures forall g <- groups :: IsIdentifier(g)
  {
    if groups != [] {
      assert LabelsTokens(groups)[0] in LabelsTokens(groups);
      if |groups| > 1 {
        assert forall t <- LabelsTokens(groups[1..]) :: t in LabelsTokens(groups);
        LabelsLexed(groups[1..]);
      }
    }
  }

  lemma {:induction false} PhraseShape(lib: Strconv, p: Phrase)
    requires Grammatical(lib, p) && WellLexed(Yield(lib, p))
    ensures Shape(Tree(lib, p))
  {
    hide SelectorTokens, LabelsTokens;
    var ts := Yield(lib, p);
    match p
    case Plain(s) => SelectorLexed(s);
    case Rated(s, interval) =>
      assert forall t <- SelectorTokens(s) :: t in ts;
      SelectorLexed(s);
      assert Ident(interval) in ts;
    case Summed(groups, inner) =>
      assert forall t <- LabelsTokens(groups) :: groups != [] ==> t in ts;
      if groups != [] { LabelsLexed(groups); }
      assert forall t <- Yield(lib, inner) :: t in ts;
      PhraseShape(lib, inner);
    case Ranked(_, inner) =>
      assert forall t <- Yield(lib, inner) :: t in ts;
      PhraseShape(lib, inner);
    case Grouped(inner) =>
      assert forall t <- Yield(lib, inner) :: t in ts;
      PhraseShape(lib, inner);
    case Divided(l, r) =>
      assert forall t <- Yield(lib, l) + Yield(lib, r) :: t in ts;
      PhraseShape(lib, l);
      PhraseShape(lib, r);
    case Literal(_) =>
  }

  lemma {:induction false} ParsedShape(lib: Strconv, text: string)
    requires ParseSpec(lib, text).Ok?
    ensures Shape(ParseSpec(lib, text).value)
    ensures '\\' !in text
  {
    hide ParseTokens, LexAll, Yield, Grammatical;
    var ts, e := LexAll(text).tokens, ParseSpec(lib, text).value;
    LexedWell(text);
    ParsesExactlyWhen(lib, ts, e);
    var p :| Grammatical(lib, p) && Yield(lib, p) == ts && Tree(lib, p) == e;
    PhraseShape(lib, p);
  }

  // ---- A value that needs an escape never comes back ----

  lemma {:induction false} EscapeInQuote(lib: Strconv, v: string)
    requires !PlainValue(lib, v)
    ensures '\\' in QuoteBody(lib, v)
  {
    if CopiedByQuote(lib, v[0]) {
      var i :| 0 <= i < |v| && !CopiedByQuote(lib, v[i]);
      assert v[1..][i - 1] == v[i];
      EscapeInQuote(lib, v[1..]);
    } else {
      assert QuoteRune(lib, v[0])[0] == '\\';
    }
  }

  lemma {:induction false} EscapeInMatchers(lib: Strconv, ms: seq<LabelMatcher>)
    requires exists m <- ms :: !PlainValue(lib, m.value)
    ensures '\\' in MatchersText(lib, ms)
  {
    if !PlainValue(lib, ms[0].value) {
      EscapeInQuote(lib, ms[0].value);
      assert '\\' in MatcherText(lib, ms[0]);
    } else {
      var m :| m in ms && !PlainValue(lib, m.value);
      assert m in ms[1..];
      EscapeInMatchers(lib, ms[1..]);
    }
  }

  lemma {:induction false} EscapeInSelector(lib: Strconv, s: Selector)
    requires !SelectorPrintable(lib, s)
    ensures '\\' in SelectorText(lib, s)
  {
    EscapeInMatchers(lib, s.matchers);
  }

  lemma {:induction false} EscapeInText(lib: Strconv, e: Expr)
    requires !Printable(lib, e)
    ensures '\\' in Text(lib, e)
  {
    match e
    case Select(s) => EscapeInSelector(lib, s);
    case Rate(s, _) => EscapeInSelector(lib, s);
    case Sum(_, inner) => EscapeInText(lib, inner);
    case Quantile(_, inner) => EscapeInText(lib, inner);
    case Divide(l, r) => if !Printable(lib, l) { EscapeInText(lib, l); } else { EscapeInText(lib, r); }
  }

  // ---- The theorems ----

  // `Equal`: same node, same fields, same matcher order.
  predicate EqualTrees(first: Expr, second: Expr)
  {
    match (first, second)
    case (NoExpr, NoExpr) => true
    case (Select(s), Select(t)) => EqualSelectors(s, t)
    case (Rate(s, i), Rate(t, j)) => i == j && EqualSelectors(s, t)
    case (Sum(g, x), Sum(h, y)) =>
      |g| == |h| && (forall i :: 0 <= i < |g| ==> g[i] == h[i]) && EqualTrees(x, y)
    case (Quantile(p, x), Quantile(q, y)) => p == q && EqualTrees(x, y)
    case (Divide(x, y), Divide(v, w)) => EqualTrees(x, v) && EqualTrees(y, w)
    case (Scalar(v), Scalar(w)) => v == w
    case _ => false
  }

  predicate EqualSelectors(s: Selector, t: Selector)
  {
    && s.metricName == t.metricName && |s.matchers| == |t.matchers|
    && forall i :: 0 <= i < |s.matchers| ==> s.matchers[i] == t.matchers[i]
  }

  lemma {:induction false} EqualIsIdentity(first: Expr, second: Expr)
    ensures EqualTrees(first, second) <==> first == second
  {
    match (first, second)
    case (Sum(g, x), Sum(h, y)) => EqualIsIdentity(x, y);
    case (Quantile(_, x), Quantile(_, y)) => EqualIsIdentity(x, y);
    case (Divide(x, y), Divide(v, w)) => EqualIsIdentity(x, v); EqualIsIdentity(y, w);
    case _ =>
  }

  // Render succeeds, and Parse of what it printed is the same tree.
  ghost predicate RoundTrips(lib: Strconv, e: Expr)
  {
    RenderSpec(lib, e).Ok? && ParseSpec(lib, RenderSpec(lib, e).value) == Ok(e)
  }

  lemma {:induction false} ShapeRenders(e: Expr)
    requires Shape(e)
    ensures Renders(e)
  {
    match e
    case Sum(_, inner) => ShapeRenders(inner);
    case Quantile(_, inner) => ShapeRenders(inner);
    case Divide(l, r) => ShapeRenders(l); ShapeRenders(r);
    case _ =>
  }

  // Exactly the trees with identifier names and escape-free values survive.
  lemma {:induction false} RoundTripExactlyWhen(lib: Strconv, e: Expr)
    requires PlainNumbers(lib, e)
    ensures RoundTrips(lib, e) <==> Shape(e) && Printable(lib, e)
  {
    if Shape(e) && Printable(lib, e) {
      ShapeRenders(e);
      PrintedParses(lib, e);
    } else if RoundTrips(lib, e) {
      ParsedShape(lib, Text(lib, e));
      EscapeInText(lib, e);
      assert false;
    }
  }

  // Printing what was parsed normalises the text: it parses to the same tree again,
  // and from then on nothing changes.
  lemma {:induction false} ParseThenRenderNormalises(lib: Strconv, text: string, e: Expr)
    requires ParseSpec(lib, text) == Ok(e)
    requires PlainNumbers(lib, e)
    ensures RoundTrips(lib, e) <==> Printable(lib, e)
  {
    ParsedShape(lib, text);
    RoundTripExactlyWhen(lib, e);
  }
}
