/** The grammar of dashboard/query/parse.go, stated apart from the parser: what a query is
    written as, what tree it means, and that the parser accepts exactly that. */
module QueryGrammar {
  import opened Wrappers
  import opened QueryTypes
  import opened QueryRender
  import opened QueryLex
  import opened QueryParse
  import opened QueryRoundTrip

  // ---- Phrases ----

  // A query as written: parentheses and the spelling of numbers are kept.
  datatype Phrase =
    | Plain(selector: Selector)
    | Rated(selector: Selector, interval: string)
    | Summed(groups: seq<string>, inner: Phrase)
    | Ranked(digits: string, inner: Phrase)
    | Literal(digits: string)
    | Grouped(inner: Phrase)
    | Divided(left: Phrase, right: Phrase)

  // A number can be read, a selector is not named like a function, and what stands behind a
  // slash is no division itself unless it is in parentheses.
  predicate Grammatical(lib: Strconv, p: Phrase)
  {
    match p
    case Plain(s) => KnownMatchers(s) && !Keyword(s.metricName)
    case Rated(s, _) => KnownMatchers(s)
    case Summed(_, inner) => Grammatical(lib, inner)
    case Ranked(digits, inner) => lib.parseFloat(digits).Some? && Grammatical(lib, inner)
    case Literal(digits) => lib.parseFloat(digits).Some?
    case Grouped(inner) => Grammatical(lib, inner)
    case Divided(l, r) => Grammatical(lib, l) && Grammatical(lib, r) && !r.Divided?
  }

  function Yield(lib: Strconv, p: Phrase): seq<Token>
    requires Grammatical(lib, p)
  {
    match p
    case Plain(s) => SelectorTokens(s)
    case Rated(s, interval) =>
      [Ident("rate"), LeftParen] + SelectorTokens(s) + [LeftBracket, Ident(interval), RightBracket, RightParen]
    case Summed(groups, inner) => GroupsTokens(groups) + [LeftParen] + Yield(lib, inner) + [RightParen]
    case Ranked(digits, inner) =>
      [Ident("histogram_quantile"), LeftParen, Number(digits), Comma] + Yield(lib, inner) + [RightParen]
    case Literal(digits) => [Number(digits)]
    case Grouped(inner) => [LeftParen] + Yield(lib, inner) + [RightParen]
    case Divided(l, r) => Yield(lib, l) + [Slash] + Yield(lib, r)
  }

  function Tree(lib: Strconv, p: Phrase): Expr
    requires Grammatical(lib, p)
  {
    match p
    case Plain(s) => Select(s)
    case Rated(s, interval) => Rate(s, interval)
    case Summed(groups, inner) => Sum(groups, Tree(lib, inner))
    case Ranked(digits, inner) => Quantile(lib.parseFloat(digits).value, Tree(lib, inner))
    case Literal(digits) => Scalar(lib.parseFloat(digits).value)
    case Grouped(inner) => Tree(lib, inner)
    case Divided(l, r) => Divide(Tree(lib, l), Tree(lib, r))
  }

  // ---- Every phrase is read as its tree ----

  // Tokens behind a term that do not extend it.
  predicate Closes(ts: seq<Token>)
  {
    Head(ts) != LeftBrace && Head(ts) != LeftParen
  }

  lemma {:induction false} ReadMatcher(m: LabelMatcher, more: seq<Token>)
    requires !m.op.OtherOp?
    ensures Head(more) != Comma ==> ParseMatchers(MatcherTokens(m) + more) == Got([m], more)
    ensures Head(more) == Comma ==>
              ParseMatchers(MatcherTokens(m) + more) ==
              match ParseMatchers(more[1..]) case Bad => Bad case Got(ms, rest) => Got([m] + ms, rest)
  {
    var ts := MatcherTokens(m) + more;
    assert ts[3..] == more;
    if Head(more) == Comma { assert ts[4..] == more[1..]; }
    assert LabelMatcher(m.name, OperatorOf(OpToken(m.op)).value, m.value) == m;
  }

  lemma {:induction false} ReadMatchers(ms: seq<LabelMatcher>, rest: seq<Token>)
    requires ms != [] && forall m <- ms :: !m.op.OtherOp?
    requires Head(rest) != Comma
    ensures ParseMatchers(MatchersTokens(ms) + rest) == Got(ms, rest)
  {
    hide ParseMatchers, MatcherTokens;
    if |ms| == 1 {
      ReadMatcher(ms[0], rest);
      assert [ms[0]] == ms;
    } else {
      var tail := MatchersTokens(ms[1..]) + rest;
      ReadMatchers(ms[1..], rest);
      ReadMatcher(ms[0], [Comma] + tail);
      assert ([Comma] + tail)[1..] == tail;
      SplitMatchers(MatcherTokens(ms[0]), MatchersTokens(ms[1..]), rest);
      assert [ms[0]] + ms[1..] == ms;
    }
  }

  lemma {:induction false} SplitMatchers(m: seq<Token>, x: seq<Token>, rest: seq<Token>)
    ensures m + [Comma] + x + rest == m + ([Comma] + (x + rest))
  {
  }

  lemma {:induction false} BracedSelector(name: string, ms: seq<LabelMatcher>, inside: seq<Token>, rest: seq<Token>)
    requires ParseMatchers(inside) == Got(ms, [RightBrace] + rest)
    ensures ParseSelector([Ident(name), LeftBrace] + inside) == Got(Selector(name, ms), rest)
  {
    hide ParseMatchers;
    var ts := [Ident(name), LeftBrace] + inside;
    assert ts[1] == LeftBrace && ts[2..] == inside;
    assert ([RightBrace] + rest)[1..] == rest;
  }

  lemma {:induction false} JoinSelector(name: string, x: seq<Token>, rest: seq<Token>)
    ensures [Ident(name), LeftBrace] + x + [RightBrace] + rest ==
            [Ident(name), LeftBrace] + (x + ([RightBrace] + rest))
  {
  }

  lemma {:induction false} ReadSelector(s: Selector, rest: seq<Token>)
    requires KnownMatchers(s) && Head(rest) != LeftBrace
    ensures ParseSelector(SelectorTokens(s) + rest) == Got(s, rest)
  {
    if s.matchers == [] {
      assert ([Ident(s.metricName)] + rest)[1..] == rest;
    } else {
      hide ParseSelector, ParseMatchers, MatchersTokens;
      var inside := MatchersTokens(s.matchers) + ([RightBrace] + rest);
      ReadMatchers(s.matchers, [RightBrace] + rest);
      BracedSelector(s.metricName, s.matchers, inside, rest);
      JoinSelector(s.metricName, MatchersTokens(s.matchers), rest);
    }
  }

  lemma {:induction false} ReadLabel(name: string, more: seq<Token>)
    ensures Head(more) != Comma ==> ParseLabels([Ident(name)] + more) == Got([name], more)
    ensures ParseLabels([Ident(name), Comma] + more) ==
            match ParseLabels(more) case Bad => Bad case Got(labels, rest) => Got([name] + labels, rest)
  {
    assert ([Ident(name)] + more)[1..] == more;
    assert ([Ident(name), Comma] + more)[2..] == more;
  }

  lemma {:induction false} ReadLabels(groups: seq<string>, rest: seq<Token>)
    requires groups != [] && Head(rest) != Comma
    ensures ParseLabels(LabelsTokens(groups) + rest) == Got(groups, rest)
  {
    hide ParseLabels;
    if |groups| == 1 {
      ReadLabel(groups[0], rest);
      assert [groups[0]] == groups;
    } else {
      var tail := LabelsTokens(groups[1..]) + rest;
      ReadLabels(groups[1..], rest);
      ReadLabel(groups[0], tail);
      JoinLabel(groups[0], LabelsTokens(groups[1..]), rest);
      assert [groups[0]] + groups[1..] == groups;
    }
  }

  lemma {:induction false} JoinLabel(name: string, x: seq<Token>, rest: seq<Token>)
    ensures [Ident(name), Comma] + x + rest == [Ident(name), Comma] + (x + rest)
  {
  }

  lemma {:induction false} ByLabels(groups: seq<string>, inside: seq<Token>, rest: seq<Token>)
    requires ParseLabels(inside) == Got(groups, [RightParen] + rest)
    ensures ParseBy([Ident("by"), LeftParen] + inside) == Got(groups, rest)
  {
    hide ParseLabels;
    var ts := [Ident("by"), LeftParen] + inside;
    assert ts[1] == LeftParen && ts[2..] == inside;
    assert ([RightParen] + rest)[1..] == rest;
  }

  lemma {:induction false} ReadBy(groups: seq<string>, rest: seq<Token>)
    requires Head(rest) != Ident("by")
    ensures ParseBy(GroupsTokens(groups)[1..] + rest) == Got(groups, rest)
  {
    if groups == [] {
      assert GroupsTokens(groups)[1..] + rest == rest;
    } else {
      hide ParseBy, ParseLabels, LabelsTokens;
      var inside := LabelsTokens(groups) + ([RightParen] + rest);
      ReadLabels(groups, [RightParen] + rest);
      ByLabels(groups, inside, rest);
      SplitBy(LabelsTokens(groups), rest);
    }
  }

  lemma {:induction false} SplitBy(x: seq<Token>, rest: seq<Token>)
    ensures ([Ident("sum"), Ident("by"), LeftParen] + x + [RightParen])[1..] + rest ==
            [Ident("by"), LeftParen] + (x + ([RightParen] + rest))
  {
  }

  lemma {:induction false} ReadRate(lib: Strconv, s: Selector, interval: string, rest: seq<Token>)
    requires KnownMatchers(s)
    ensures ParseTerm(lib, [Ident("rate"), LeftParen] + SelectorTokens(s)
                           + [LeftBracket, Ident(interval), RightBracket, RightParen] + rest)
            == Got(Rate(s, interval), rest)
  {
    var tail := [LeftBracket, Ident(interval), RightBracket, RightParen] + rest;
    var ts := [Ident("rate"), LeftParen] + SelectorTokens(s)
              + [LeftBracket, Ident(interval), RightBracket, RightParen] + rest;
    assert ts[0] == Ident("rate");
    assert ts[1..] == [LeftParen] + (SelectorTokens(s) + tail);
    assert ts[1..][1..] == SelectorTokens(s) + tail;
    ReadSelector(s, tail);
    assert tail[4..] == rest;
  }

  lemma {:induction false} ReadPlain(lib: Strconv, s: Selector, rest: seq<Token>)
    requires KnownMatchers(s) && !Keyword(s.metricName) && Closes(rest)
    ensures ParseTerm(lib, SelectorTokens(s) + rest) == Got(Select(s), rest)
  {
    var ts := SelectorTokens(s) + rest;
    ReadSelector(s, rest);
    assert ts[0] == Ident(s.metricName);
    if s.matchers == [] { assert ts[1..] == rest; } else { assert ts[1] == LeftBrace; }
  }

  lemma {:induction false} ReadLiteral(lib: Strconv, digits: string, rest: seq<Token>)
    requires lib.parseFloat(digits).Some?
    ensures ParseTerm(lib, [Number(digits)] + rest) == Got(Scalar(lib.parseFloat(digits).value), rest)
  {
    assert ([Number(digits)] + rest)[1..] == rest;
  }

  // `e)` read as a closed expression, given that `e` reads back before a `)`.
  lemma {:induction false} ReadClosed(lib: Strconv, ts: seq<Token>, e: Expr, rest: seq<Token>)
    requires ParseExpression(lib, ts) == ParseDivisions(lib, e, [RightParen] + rest)
    ensures ParseClosed(lib, ts) == Got(e, rest)
  {
    hide ParseTerm, ParseExpression;
    assert ([RightParen] + rest)[1..] == rest;
  }

  // Where ParseTerm goes on the first token.
  lemma {:induction false} TermDispatch(lib: Strconv, ts: seq<Token>)
    ensures Head(ts) == LeftParen ==> ParseTerm(lib, ts) == ParseClosed(lib, ts[1..])
    ensures Head(ts) == Ident("sum") ==> ParseTerm(lib, ts) == ParseSumBody(lib, ts[1..])
    ensures Head(ts) == Ident("histogram_quantile") ==> ParseTerm(lib, ts) == ParseQuantileBody(lib, ts[1..])
  {
    hide ParseClosed, ParseSumBody, ParseQuantileBody, ParseSelector, ParseRateBody;
  }

  lemma {:induction false} SumBody(
    lib: Strconv, ts: seq<Token>, groups: seq<string>, body: seq<Token>, inner: Expr, rest: seq<Token>)
    requires ParseBy(ts) == Got(groups, [LeftParen] + body)
    requires ParseClosed(lib, body) == Got(inner, rest)
    ensures ParseSumBody(lib, ts) == Got(Sum(groups, inner), rest)
  {
    hide ParseBy, ParseClosed;
    assert ([LeftParen] + body)[1..] == body;
  }

  lemma {:induction false} QuantileBody(
    lib: Strconv, digits: string, q: real, body: seq<Token>, inner: Expr, rest: seq<Token>)
    requires lib.parseFloat(digits) == Some(q) && ParseClosed(lib, body) == Got(inner, rest)
    ensures ParseQuantileBody(lib, [LeftParen, Number(digits), Comma] + body) == Got(Quantile(q, inner), rest)
  {
    hide ParseClosed;
    assert ([LeftParen, Number(digits), Comma] + body)[3..] == body;
  }

  // Regroupings of the token lists.
  lemma {:induction false} SplitSum(g: seq<Token>, x: seq<Token>, rest: seq<Token>)
    requires g != []
    ensures var ts := g + [LeftParen] + x + [RightParen] + rest;
            ts[0] == g[0] && ts[1..] == g[1..] + ([LeftParen] + (x + ([RightParen] + rest)))
  {
  }

  lemma {:induction false} SplitQuantile(name: Token, number: Token, x: seq<Token>, rest: seq<Token>)
    ensures var ts := [name, LeftParen, number, Comma] + x + [RightParen] + rest;
            ts[0] == name && ts[1..] == [LeftParen, number, Comma] + (x + ([RightParen] + rest))
  {
  }

  lemma {:induction false} SplitGroup(x: seq<Token>, rest: seq<Token>)
    ensures var ts := [LeftParen] + x + [RightParen] + rest;
            ts[0] == LeftParen && ts[1..] == x + ([RightParen] + rest)
  {
  }

  lemma {:induction false} SplitDivide(x: seq<Token>, y: seq<Token>, rest: seq<Token>)
    ensures x + [Slash] + y + rest == x + ([Slash] + (y + rest))
    ensures ([Slash] + (y + rest))[1..] == y + rest
  {
  }

  lemma {:induction false} ReadSum(lib: Strconv, groups: seq<string>, x: seq<Token>, inner: Expr, rest: seq<Token>)
    requires ParseClosed(lib, x + ([RightParen] + rest)) == Got(inner, rest)
    ensures ParseTerm(lib, GroupsTokens(groups) + [LeftParen] + x + [RightParen] + rest) ==
            Got(Sum(groups, inner), rest)
  {
    hide ParseTerm, ParseClosed, ParseSumBody, ParseBy;
    var g := GroupsTokens(groups);
    assert g != [] && g[0] == Ident("sum");
    hide GroupsTokens;
    var body := x + ([RightParen] + rest);
    SplitSum(g, x, rest);
    TermDispatch(lib, g + [LeftParen] + x + [RightParen] + rest);
    ReadBy(groups, [LeftParen] + body);
    SumBody(lib, g[1..] + ([LeftParen] + body), groups, body, inner, rest);
  }

  lemma {:induction false} ReadQuantile(lib: Strconv, digits: string, x: seq<Token>, inner: Expr, rest: seq<Token>)
    requires lib.parseFloat(digits).Some? && ParseClosed(lib, x + ([RightParen] + rest)) == Got(inner, rest)
    ensures ParseTerm(lib, [Ident("histogram_quantile"), LeftParen, Number(digits), Comma] + x + [RightParen] + rest)
            == Got(Quantile(lib.parseFloat(digits).value, inner), rest)
  {
    hide ParseTerm, ParseClosed, ParseQuantileBody;
    SplitQuantile(Ident("histogram_quantile"), Number(digits), x, rest);
    TermDispatch(lib, [Ident("histogram_quantile"), LeftParen, Number(digits), Comma] + x + [RightParen] + rest);
    QuantileBody(lib, digits, lib.parseFloat(digits).value, x + ([RightParen] + rest), inner, rest);
  }

  // A phrase before anything that does not extend it: a term reads as its tree, and any phrase
  // becomes the left side of the divisions that follow.
  lemma {:induction false} ReadPhrase(lib: Strconv, p: Phrase, rest: seq<Token>)
    requires Grammatical(lib, p) && Closes(rest)
    ensures !p.Divided? ==> ParseTerm(lib, Yield(lib, p) + rest) == Got(Tree(lib, p), rest)
    ensures ParseExpression(lib, Yield(lib, p) + rest) == ParseDivisions(lib, Tree(lib, p), rest)
    decreases p, 0
  {
    hide ParseTerm, ParseClosed, SelectorTokens, GroupsTokens;
    match p
    case Plain(s) => ReadPlain(lib, s, rest);
    case Rated(s, interval) => ReadRate(lib, s, interval, rest);
    case Literal(digits) => ReadLiteral(lib, digits, rest);
    case Summed(groups, inner) =>
      ReadBeforeParen(lib, inner, rest);
      ReadSum(lib, groups, Yield(lib, inner), Tree(lib, inner), rest);
    case Ranked(digits, inner) =>
      ReadBeforeParen(lib, inner, rest);
      ReadQuantile(lib, digits, Yield(lib, inner), Tree(lib, inner), rest);
    case Grouped(inner) =>
      ReadBeforeParen(lib, inner, rest);
      SplitGroup(Yield(lib, inner), rest);
      TermDispatch(lib, Yield(lib, p) + rest);
    case Divided(l, r) =>
      SplitDivide(Yield(lib, l), Yield(lib, r), rest);
      ReadPhrase(lib, r, rest);
      ReadPhrase(lib, l, [Slash] + (Yield(lib, r) + rest));
  }

  lemma {:induction false} ReadBeforeParen(lib: Strconv, p: Phrase, rest: seq<Token>)
    requires Grammatical(lib, p)
    ensures ParseClosed(lib, Yield(lib, p) + ([RightParen] + rest)) == Got(Tree(lib, p), rest)
    decreases p, 1
  {
    hide ParseClosed, ParseExpression;
    ReadPhrase(lib, p, [RightParen] + rest);
    ReadClosed(lib, Yield(lib, p) + ([RightParen] + rest), Tree(lib, p), rest);
  }

  // ---- Whatever is read is a phrase ----

  lemma {:induction false} MatchersWritten(ts: seq<Token>)
    requires ParseMatchers(ts).Got?
    ensures var r := ParseMatchers(ts);
            r.value != [] && (forall m <- r.value :: !m.op.OtherOp?) && ts == MatchersTokens(r.value) + r.rest
  {
    var m := LabelMatcher(ts[0].name, OperatorOf(ts[1]).value, ts[2].value);
    assert MatcherTokens(m) == ts[..3];
    if Head(ts[3..]) == Comma {
      MatchersWritten(ts[4..]);
      var more := ParseMatchers(ts[4..]);
      assert ([m] + more.value)[1..] == more.value;
      assert ts == ts[..3] + [Comma] + ts[4..];
    }
  }

  lemma {:induction false} SelectorWritten(ts: seq<Token>)
    requires ParseSelector(ts).Got?
    ensures var r := ParseSelector(ts);
            && KnownMatchers(r.value) && ts == SelectorTokens(r.value) + r.rest
            && Head(ts) == Ident(r.value.metricName)
  {
    hide MatchersTokens;
    if Head(ts[1..]) == LeftBrace {
      MatchersWritten(ts[2..]);
      var ms := ParseMatchers(ts[2..]);
      assert ts == [ts[0], LeftBrace] + ts[2..] && ms.rest == [RightBrace] + ms.rest[1..];
    }
  }

  lemma {:induction false} LabelsWritten(ts: seq<Token>)
    requires ParseLabels(ts).Got?
    ensures ParseLabels(ts).value != [] && ts == LabelsTokens(ParseLabels(ts).value) + ParseLabels(ts).rest
  {
    if Head(ts[1..]) == Comma {
      LabelsWritten(ts[2..]);
      var more := ParseLabels(ts[2..]);
      assert ([ts[0].name] + more.value)[1..] == more.value;
      assert ts == [ts[0], Comma] + ts[2..];
    }
  }

  lemma {:induction false} ByWritten(ts: seq<Token>)
    requires ParseBy(ts).Got?
    ensures [Ident("sum")] + ts == GroupsTokens(ParseBy(ts).value) + ParseBy(ts).rest
  {
    hide LabelsTokens, ParseLabels;
    if Head(ts) == Ident("by") {
      LabelsWritten(ts[2..]);
      var labels := ParseLabels(ts[2..]);
      JoinBy(LabelsTokens(labels.value), labels.rest[1..]);
      assert ts == [Ident("by"), LeftParen] + ts[2..] && labels.rest == [RightParen] + labels.rest[1..];
    }
  }

  lemma {:induction false} JoinBy(x: seq<Token>, rest: seq<Token>)
    ensures [Ident("sum")] + ([Ident("by"), LeftParen] + (x + ([RightParen] + rest))) ==
            [Ident("sum"), Ident("by"), LeftParen] + x + [RightParen] + rest
  {
  }

  lemma {:induction false} RateWritten(ts: seq<Token>) returns (p: Phrase)
    requires ParseRateBody(ts).Got?
    ensures p.Rated? && KnownMatchers(p.selector) && Rate(p.selector, p.interval) == ParseRateBody(ts).value
    ensures [Ident("rate")] + ts ==
            [Ident("rate"), LeftParen] + SelectorTokens(p.selector)
            + [LeftBracket, Ident(p.interval), RightBracket, RightParen] + ParseRateBody(ts).rest
  {
    hide ParseSelector, SelectorTokens;
    SelectorWritten(ts[1..]);
    var s := ParseSelector(ts[1..]);
    p := Rated(s.value, s.rest[1].name);
    assert s.rest == [LeftBracket, Ident(p.interval), RightBracket, RightParen] + s.rest[4..];
    assert ts == [LeftParen] + ts[1..];
  }

  lemma {:induction false} ClosedWritten(lib: Strconv, ts: seq<Token>) returns (p: Phrase)
    requires ParseClosed(lib, ts).Got?
    ensures Grammatical(lib, p) && Tree(lib, p) == ParseClosed(lib, ts).value
    ensures ts == Yield(lib, p) + ([RightParen] + ParseClosed(lib, ts).rest)
    decreases |ts|, 4
  {
    hide ParseExpression, Yield;
    p := ExpressionWritten(lib, ts);
    var rest := ParseExpression(lib, ts).rest;
    assert rest == [RightParen] + rest[1..];
  }

  lemma {:induction false} TermWritten(lib: Strconv, ts: seq<Token>) returns (p: Phrase)
    requires ParseTerm(lib, ts).Got?
    ensures Grammatical(lib, p) && !p.Divided? && Tree(lib, p) == ParseTerm(lib, ts).value
    ensures ts == Yield(lib, p) + ParseTerm(lib, ts).rest
    decreases |ts|, 2
  {
    hide ParseClosed, ParseSumBody, ParseQuantileBody, ParseSelector, ParseRateBody, SelectorTokens, GroupsTokens;
    assert ts == [ts[0]] + ts[1..];
    match Head(ts)
    case LeftParen =>
      var inner := ClosedWritten(lib, ts[1..]);
      p := Grouped(inner);
      SplitGroup(Yield(lib, inner), ParseTerm(lib, ts).rest);
    case Ident(name) =>
      if name == "sum" { p := SumWritten(lib, ts[1..]); }
      else if name == "rate" { p := RateWritten(ts[1..]); }
      else if name == "histogram_quantile" { p := QuantileWritten(lib, ts[1..]); }
      else {
        SelectorWritten(ts);
        p := Plain(ParseSelector(ts).value);
      }
    case Number(digits) => p := Literal(digits);
  }

  lemma {:induction false} SumWritten(lib: Strconv, ts: seq<Token>) returns (p: Phrase)
    requires ParseSumBody(lib, ts).Got?
    ensures p.Summed? && Grammatical(lib, p) && Tree(lib, p) == ParseSumBody(lib, ts).value
    ensures [Ident("sum")] + ts == Yield(lib, p) + ParseSumBody(lib, ts).rest
    decreases |ts|, 1
  {
    hide ParseClosed, ParseBy, GroupsTokens;
    var labels := ParseBy(ts);
    ByWritten(ts);
    var inner := ClosedWritten(lib, labels.rest[1..]);
    p := Summed(labels.value, inner);
    assert labels.rest == [LeftParen] + labels.rest[1..];
    JoinSum(GroupsTokens(labels.value), Yield(lib, inner), ParseSumBody(lib, ts).rest);
  }

  lemma {:induction false} JoinSum(g: seq<Token>, x: seq<Token>, rest: seq<Token>)
    ensures g + ([LeftParen] + (x + ([RightParen] + rest))) == g + [LeftParen] + x + [RightParen] + rest
  {
  }

  lemma {:induction false} QuantileWritten(lib: Strconv, ts: seq<Token>) returns (p: Phrase)
    requires ParseQuantileBody(lib, ts).Got?
    ensures p.Ranked? && Grammatical(lib, p) && Tree(lib, p) == ParseQuantileBody(lib, ts).value
    ensures [Ident("histogram_quantile")] + ts == Yield(lib, p) + ParseQuantileBody(lib, ts).rest
    decreases |ts|, 0
  {
    hide ParseClosed;
    var inner := ClosedWritten(lib, ts[3..]);
    p := Ranked(ts[1].digits, inner);
    var rest := ParseQuantileBody(lib, ts).rest;
    SplitQuantile(Ident("histogram_quantile"), Number(ts[1].digits), Yield(lib, inner), rest);
    assert ts == [LeftParen, Number(ts[1].digits), Comma] + ts[3..];
  }

  lemma {:induction false} DivisionsWritten(lib: Strconv, left: Phrase, ts: seq<Token>) returns (p: Phrase)
    requires Grammatical(lib, left) && ParseDivisions(lib, Tree(lib, left), ts).Got?
    ensures Grammatical(lib, p) && Tree(lib, p) == ParseDivisions(lib, Tree(lib, left), ts).value
    ensures Yield(lib, left) + ts == Yield(lib, p) + ParseDivisions(lib, Tree(lib, left), ts).rest
    decreases |ts|, 2
  {
    hide ParseTerm;
    if Head(ts) == Slash {
      var right := TermWritten(lib, ts[1..]);
      var rest := ParseTerm(lib, ts[1..]).rest;
      p := DivisionsWritten(lib, Divided(left, right), rest);
      assert ts == [Slash] + ts[1..];
      SplitDivide(Yield(lib, left), Yield(lib, right), rest);
    } else {
      p := left;
    }
  }

  lemma {:induction false} ExpressionWritten(lib: Strconv, ts: seq<Token>) returns (p: Phrase)
    requires ParseExpression(lib, ts).Got?
    ensures Grammatical(lib, p) && Tree(lib, p) == ParseExpression(lib, ts).value
    ensures ts == Yield(lib, p) + ParseExpression(lib, ts).rest
    decreases |ts|, 3
  {
    hide ParseTerm, ParseDivisions;
    var first := TermWritten(lib, ts);
    p := DivisionsWritten(lib, first, ParseTerm(lib, ts).rest);
  }

  // ---- The parser is the grammar ----

  ghost predicate Means(lib: Strconv, ts: seq<Token>, e: Expr)
  {
    exists p :: Grammatical(lib, p) && Yield(lib, p) == ts && Tree(lib, p) == e
  }

  // The parser answers a tree exactly when the tokens are a phrase that means it; so no token
  // list has two meanings.
  lemma {:induction false} ParsesExactlyWhen(lib: Strconv, ts: seq<Token>, e: Expr)
    ensures ParseTokens(lib, ts) == Ok(e) <==> Means(lib, ts, e)
  {
    hide ParseExpression, Yield, Tree, Grammatical;
    if ParseTokens(lib, ts) == Ok(e) {
      var p := ExpressionWritten(lib, ts);
      assert Yield(lib, p) + [] == Yield(lib, p);
    }
    if Means(lib, ts, e) {
      var p :| Grammatical(lib, p) && Yield(lib, p) == ts && Tree(lib, p) == e;
      ReadPhrase(lib, p, []);
      assert ts + [] == ts;
    }
  }

  // ---- Chains of divisions ----

  predicate Prints(lib: Strconv, e: Expr) { Shape(e) && PlainNumbers(lib, e) }

  // The tokens of the trees with a slash before each but the first.
  function Chain(lib: Strconv, first: Expr, others: seq<Expr>): seq<Token>
    requires Shape(first) && forall e <- others :: Shape(e)
  {
    if others == [] then ExprTokens(lib, first)
    else
      var n := |others| - 1;
      assert others[n] in others;
      Chain(lib, first, others[..n]) + [Slash] + ExprTokens(lib, others[n])
  }

  function LeftFold(first: Expr, others: seq<Expr>): Expr
  {
    if others == [] then first else Divide(LeftFold(first, others[..|others| - 1]), others[|others| - 1])
  }

  // The phrase a tree is printed as.
  function Printed(lib: Strconv, e: Expr): (p: Phrase)
    requires Prints(lib, e)
    ensures Grammatical(lib, p) && !p.Divided?
  {
    match e
    case Select(s) => Plain(s)
    case Rate(s, interval) => Rated(s, interval)
    case Sum(groups, inner) => Summed(groups, Printed(lib, inner))
    case Quantile(q, inner) => Ranked(lib.formatFloat(q), Printed(lib, inner))
    case Divide(l, r) => Grouped(Divided(Printed(lib, l), Printed(lib, r)))
    case Scalar(v) => Literal(lib.formatFloat(v))
  }

  lemma {:induction false} PrintedMeans(lib: Strconv, e: Expr)
    requires Prints(lib, e)
    ensures Yield(lib, Printed(lib, e)) == ExprTokens(lib, e) && Tree(lib, Printed(lib, e)) == e
  {
    hide SelectorTokens, GroupsTokens;
    match e
    case Sum(_, inner) => PrintedMeans(lib, inner);
    case Quantile(_, inner) => PrintedMeans(lib, inner);
    case Divide(l, r) =>
      PrintedMeans(lib, l);
      PrintedMeans(lib, r);
      assert [LeftParen] + (ExprTokens(lib, l) + [Slash] + ExprTokens(lib, r)) + [RightParen] == ExprTokens(lib, e);
    case _ =>
  }

  lemma {:induction false} ChainPhrase(lib: Strconv, first: Expr, others: seq<Expr>) returns (p: Phrase)
    requires Prints(lib, first) && forall e <- others :: Shape(e) && PlainNumbers(lib, e)
    ensures Grammatical(lib, p) && Yield(lib, p) == Chain(lib, first, others) && Tree(lib, p) == LeftFold(first, others)
  {
    hide ExprTokens;
    if others == [] {
      p := Printed(lib, first);
      PrintedMeans(lib, first);
    } else {
      var n := |others| - 1;
      assert others[n] in others;
      var left := ChainPhrase(lib, first, others[..n]);
      PrintedMeans(lib, others[n]);
      p := Divided(left, Printed(lib, others[n]));
    }
  }

  // Slashes at one level group to the left.
  lemma {:induction false} ChainGroupsLeft(lib: Strconv, first: Expr, others: seq<Expr>)
    requires Prints(lib, first) && forall e <- others :: Shape(e) && PlainNumbers(lib, e)
    ensures ParseTokens(lib, Chain(lib, first, others)) == Ok(LeftFold(first, others))
  {
    hide ParseTokens, ExprTokens, LeftFold;
    var p := ChainPhrase(lib, first, others);
    ParsesExactlyWhen(lib, Chain(lib, first, others), LeftFold(first, others));
  }

  // The texts of the trees joined by ` / `.
  function ChainText(lib: Strconv, first: Expr, others: seq<Expr>): string
  {
    if others == [] then Text(lib, first)
    else ChainText(lib, first, others[..|others| - 1]) + " / " + Text(lib, others[|others| - 1])
  }

  lemma {:induction false} LexChain(lib: Strconv, first: Expr, others: seq<Expr>)
    requires Fits(lib, first) && forall e <- others :: Shape(e) && PlainNumbers(lib, e) && Printable(lib, e)
    ensures Bounded(ChainText(lib, first, others), Chain(lib, first, others))
  {
    hide Free, Bounded;
    if others == [] {
      LexPrinted(lib, first);
    } else {
      var n := |others| - 1;
      assert others[n] in others;
      var rest := others[..n];
      LexChain(lib, first, rest);
      LexPrinted(lib, others[n]);
      SpaceParen();
      BoundedThen(ChainText(lib, first, rest), Chain(lib, first, rest), " / ", [Slash]);
      FreeThen(ChainText(lib, first, rest) + " / ", Chain(lib, first, rest) + [Slash],
               Text(lib, others[n]), ExprTokens(lib, others[n]));
    }
  }

  lemma {:induction false} BoundedLexes(text: string, ts: seq<Token>)
    requires Bounded(text, ts)
    ensures LexAll(text) == Tokens(ts)
  {
    assert Boundary("") && text + "" == text;
    assert LexAll("") == Tokens([]);
    PrependNothing(ts);
  }

  lemma {:induction false} ChainTextGroupsLeft(lib: Strconv, first: Expr, others: seq<Expr>)
    requires Fits(lib, first) && forall e <- others :: Shape(e) && PlainNumbers(lib, e) && Printable(lib, e)
    ensures ParseSpec(lib, ChainText(lib, first, others)) == Ok(LeftFold(first, others))
  {
    hide LexAll, Bounded, ParseTokens;
    LexChain(lib, first, others);
    BoundedLexes(ChainText(lib, first, others), Chain(lib, first, others));
    ChainGroupsLeft(lib, first, others);
  }
}
