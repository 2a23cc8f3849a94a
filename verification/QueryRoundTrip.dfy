/** The printer and the parser undo each other: dashboard/query/render.go against
    dashboard/query/parse.go, character by character. */
module QueryRoundTrip {
  import opened Wrappers
  import opened QueryTypes
  import opened QueryRender
  import opened QueryLex

  // ---- Trees that survive printing and parsing ----

  predicate IsIdentifier(s: string)
  {
    s != "" && IsIdentStart(s[0]) && forall i :: 0 <= i < |s| ==> IsIdentPart(s[i])
  }

  predicate Keyword(s: string) { s == "sum" || s == "rate" || s == "histogram_quantile" }

  predicate KnownMatchers(s: Selector) { forall m <- s.matchers :: !m.op.OtherOp? }

  predicate SelectorShape(s: Selector)
  {
    && IsIdentifier(s.metricName)
    && forall m <- s.matchers :: IsIdentifier(m.name) && !m.op.OtherOp?
  }

  // Names are identifiers, and a selector that stands alone does not read as a function.
  predicate Shape(e: Expr)
  {
    match e
    case NoExpr => false
    case Select(s) => SelectorShape(s) && !Keyword(s.metricName)
    case Rate(s, interval) => SelectorShape(s) && IsIdentifier(interval)
    case Sum(groups, inner) => (forall g <- groups :: IsIdentifier(g)) && Shape(inner)
    case Quantile(_, inner) => Shape(inner)
    case Divide(l, r) => Shape(l) && Shape(r)
    case Scalar(_) => true
  }

  predicate PlainValue(lib: Strconv, v: string)
  {
    forall i :: 0 <= i < |v| ==> CopiedByQuote(lib, v[i])
  }

  predicate SelectorPrintable(lib: Strconv, s: Selector)
  {
    forall m <- s.matchers :: PlainValue(lib, m.value)
  }

  // No matcher value needs an escape.
  predicate Printable(lib: Strconv, e: Expr)
  {
    match e
    case Select(s) => SelectorPrintable(lib, s)
    case Rate(s, _) => SelectorPrintable(lib, s)
    case Sum(_, inner) => Printable(lib, inner)
    case Quantile(_, inner) => Printable(lib, inner)
    case Divide(l, r) => Printable(lib, l) && Printable(lib, r)
    case _ => true
  }

  // FormatFloat prints the number with digits and points only, and ParseFloat reads it back.
  predicate PlainNumber(lib: Strconv, v: real)
  {
    var s := lib.formatFloat(v);
    s != "" && (forall i :: 0 <= i < |s| ==> IsNumberPart(s[i])) && lib.parseFloat(s) == Some(v)
  }

  predicate PlainNumbers(lib: Strconv, e: Expr)
  {
    match e
    case Sum(_, inner) => PlainNumbers(lib, inner)
    case Quantile(q, inner) => PlainNumber(lib, q) && PlainNumbers(lib, inner)
    case Divide(l, r) => PlainNumbers(lib, l) && PlainNumbers(lib, r)
    case Scalar(v) => PlainNumber(lib, v)
    case _ => true
  }

  predicate Fits(lib: Strconv, e: Expr)
  {
    Shape(e) && Printable(lib, e) && PlainNumbers(lib, e)
  }

  // ---- The tokens a tree prints as ----

  function OpToken(op: MatcherOp): Token
    requires !op.OtherOp?
  {
    match op
    case MatchEqual => Equal
    case MatchNotEqual => NotEqual
    case MatchRegex => Regex
  }

  function MatcherTokens(m: LabelMatcher): seq<Token>
    requires !m.op.OtherOp?
  {
    [Ident(m.name), OpToken(m.op), Quoted(m.value)]
  }

  function MatchersTokens(ms: seq<LabelMatcher>): seq<Token>
    requires forall m <- ms :: !m.op.OtherOp?
  {
    if ms == [] then []
    else if |ms| == 1 then MatcherTokens(ms[0])
    else MatcherTokens(ms[0]) + [Comma] + MatchersTokens(ms[1..])
  }

  function SelectorTokens(s: Selector): seq<Token>
    requires KnownMatchers(s)
  {
    if s.matchers == [] then [Ident(s.metricName)]
    else [Ident(s.metricName), LeftBrace] + MatchersTokens(s.matchers) + [RightBrace]
  }

  function LabelsTokens(groups: seq<string>): seq<Token>
  {
    if groups == [] then []
    else if |groups| == 1 then [Ident(groups[0])]
    else [Ident(groups[0]), Comma] + LabelsTokens(groups[1..])
  }

  function GroupsTokens(groups: seq<string>): seq<Token>
  {
    if groups == [] then [Ident("sum")]
    else [Ident("sum"), Ident("by"), LeftParen] + LabelsTokens(groups) + [RightParen]
  }

  function ExprTokens(lib: Strconv, e: Expr): seq<Token>
    requires Shape(e)
  {
    match e
    case Select(s) => SelectorTokens(s)
    case Rate(s, interval) =>
      [Ident("rate"), LeftParen] + SelectorTokens(s) + [LeftBracket, Ident(interval), RightBracket, RightParen]
    case Sum(groups, inner) => GroupsTokens(groups) + [LeftParen] + ExprTokens(lib, inner) + [RightParen]
    case Quantile(q, inner) =>
      [Ident("histogram_quantile"), LeftParen, Number(lib.formatFloat(q)), Comma]
      + ExprTokens(lib, inner) + [RightParen]
    case Divide(l, r) => [LeftParen] + ExprTokens(lib, l) + [Slash] + ExprTokens(lib, r) + [RightParen]
    case Scalar(v) => [Number(lib.formatFloat(v))]
  }

  // ---- Lexing what was printed ----

  // A character that can stand right behind an identifier or a number.
  predicate Boundary(s: string)
  {
    s == "" || (!IsIdentPart(s[0]) && !IsNumberPart(s[0]))
  }

  // `a` lexes as `ts` whatever follows; as `ts` when a boundary follows.
  ghost predicate Free(a: string, ts: seq<Token>)
  {
    forall rest: string :: LexAll(a + rest) == Prepend(ts, LexAll(rest))
  }

  ghost predicate Bounded(a: string, ts: seq<Token>)
  {
    forall rest: string | Boundary(rest) :: LexAll(a + rest) == Prepend(ts, LexAll(rest))
  }

  lemma {:induction false} FreeIsBounded(a: string, ts: seq<Token>)
    requires Free(a, ts)
    ensures Bounded(a, ts)
  {
  }

  lemma {:induction false} LexStep(s: string, ts: seq<Token>, n: nat)
    requires s != "" && Step(s) == Emit(ts, n) && n > 0
    ensures LexAll(s) == Prepend(ts, LexAll(s[n..]))
  {
    hide Step;
  }

  lemma {:induction false} FreeThen(a: string, ta: seq<Token>, b: string, tb: seq<Token>)
    requires Free(a, ta)
    ensures Free(b, tb) ==> Free(a + b, ta + tb)
    ensures Bounded(b, tb) ==> Bounded(a + b, ta + tb)
  {
    hide LexAll;
    forall rest: string | Free(b, tb) || (Bounded(b, tb) && Boundary(rest))
      ensures LexAll(a + b + rest) == Prepend(ta + tb, LexAll(rest))
    {
      assert a + b + rest == a + (b + rest);
      PrependTwice(ta, tb, LexAll(rest));
    }
  }

  lemma {:induction false} BoundedThen(a: string, ta: seq<Token>, b: string, tb: seq<Token>)
    requires Bounded(a, ta) && b != "" && Boundary(b)
    ensures Free(b, tb) ==> Free(a + b, ta + tb)
    ensures Bounded(b, tb) ==> Bounded(a + b, ta + tb)
  {
    hide LexAll;
    forall rest: string | Free(b, tb) || (Bounded(b, tb) && Boundary(rest))
      ensures LexAll(a + b + rest) == Prepend(ta + tb, LexAll(rest))
    {
      assert a + b + rest == a + (b + rest);
      assert Boundary(b + rest);
      PrependTwice(ta, tb, LexAll(rest));
    }
  }

  lemma {:induction false} FreePunctuation(c: char)
    requires Punctuation(c).Some?
    ensures Free([c], [Punctuation(c).value])
  {
    hide LexAll;
    forall rest: string ensures LexAll([c] + rest) == Prepend([Punctuation(c).value], LexAll(rest)) {
      assert ([c] + rest)[1..] == rest;
      LexStep([c] + rest, [Punctuation(c).value], 1);
    }
  }

  lemma {:induction false} FreeSpace()
    ensures Free(" ", [])
  {
    hide LexAll;
    forall rest: string ensures LexAll(" " + rest) == Prepend([], LexAll(rest)) {
      assert (" " + rest)[1..] == rest;
      LexStep(" " + rest, [], 1);
    }
  }

  lemma {:induction false} SpanAll(p: char -> bool, a: string, b: string)
    requires forall i :: 0 <= i < |a| ==> p(a[i])
    requires b == "" || !p(b[0])
    ensures Span(p, a + b) == |a|
  {
    if a == "" {
      assert a + b == b;
    } else {
      assert (a + b)[1..] == a[1..] + b;
      SpanAll(p, a[1..], b);
    }
  }

  lemma {:induction false} BoundedIdentifier(name: string)
    requires IsIdentifier(name)
    ensures Bounded(name, [Ident(name)])
  {
    forall rest: string | Boundary(rest) ensures LexAll(name + rest) == Prepend([Ident(name)], LexAll(rest)) {
      hide LexAll;
      SpanAll(IsIdentPart, name, rest);
      assert (name + rest)[0] == name[0];
      assert (name + rest)[..|name|] == name && (name + rest)[|name|..] == rest;
      LexStep(name + rest, [Ident(name)], |name|);
    }
  }

  lemma {:induction false} BoundedNumber(digits: string)
    requires digits != "" && forall i :: 0 <= i < |digits| ==> IsNumberPart(digits[i])
    ensures Bounded(digits, [Number(digits)])
  {
    forall rest: string | Boundary(rest) ensures LexAll(digits + rest) == Prepend([Number(digits)], LexAll(rest)) {
      hide LexAll;
      SpanAll(IsNumberPart, digits, rest);
      assert (digits + rest)[0] == digits[0];
      assert (digits + rest)[..|digits|] == digits && (digits + rest)[|digits|..] == rest;
      LexStep(digits + rest, [Number(digits)], |digits|);
    }
  }

  lemma {:induction false} QuotePlain(lib: Strconv, v: string)
    requires PlainValue(lib, v)
    ensures QuoteBody(lib, v) == v
  {
    if v != "" {
      QuotePlain(lib, v[1..]);
      assert [v[0]] + v[1..] == v;
    }
  }

  lemma {:induction false} ScanPlain(v: string, rest: string)
    requires StringSafe(v)
    ensures ScanString(v + "\"" + rest) == Some(|v|)
  {
    if v == "" {
      assert v + "\"" + rest == "\"" + rest;
    } else {
      assert (v + "\"" + rest)[1..] == v[1..] + "\"" + rest;
      ScanPlain(v[1..], rest);
    }
  }

  lemma {:induction false} LexQuoted(lib: Strconv, v: string, rest: string)
    requires PlainValue(lib, v) && StringSafe(v)
    ensures LexAll(Quote(lib, v) + rest) == Prepend([Quoted(v)], LexAll(rest))
  {
    hide LexAll;
    QuotePlain(lib, v);
    ScanPlain(v, rest);
    var s := Quote(lib, v) + rest;
    assert s[1..] == v + "\"" + rest;
    assert (v + "\"" + rest)[..|v|] == v;
    assert s[|v| + 2..] == rest;
    assert Step(s) == Emit([Quoted(v)], |v| + 2);
    LexStep(s, [Quoted(v)], |v| + 2);
  }

  // A value that Quote copies is one the lexer accepts between quotes.
  lemma {:induction false} PlainIsSafe(lib: Strconv, v: string)
    requires PlainValue(lib, v)
    ensures StringSafe(v)
  {
    forall i | 0 <= i < |v| ensures v[i] !in {'"', '\\', '\n', '\r'} {
      assert CopiedByQuote(lib, v[i]);
    }
  }

  lemma {:induction false} StepOperator(op: MatcherOp, q: string)
    requires !op.OtherOp? && q != "" && q[0] == '"'
    ensures OpText(op) + q != "" && (OpText(op) + q)[|OpText(op)|..] == q
    ensures Step(OpText(op) + q) == Emit([OpToken(op)], |OpText(op)|)
  {
  }

  lemma {:induction false} FreeOperatorValue(lib: Strconv, op: MatcherOp, v: string)
    requires !op.OtherOp? && PlainValue(lib, v)
    ensures Free(OpText(op) + Quote(lib, v), [OpToken(op), Quoted(v)])
  {
    hide Step, LexAll;
    PlainIsSafe(lib, v);
    forall rest: string
      ensures LexAll(OpText(op) + Quote(lib, v) + rest) == Prepend([OpToken(op), Quoted(v)], LexAll(rest))
    {
      var q := Quote(lib, v) + rest;
      LexQuoted(lib, v, rest);
      assert OpText(op) + Quote(lib, v) + rest == OpText(op) + q;
      StepOperator(op, q);
      LexStep(OpText(op) + q, [OpToken(op)], |OpText(op)|);
      PrependTwice([OpToken(op)], [Quoted(v)], LexAll(rest));
      assert [OpToken(op)] + [Quoted(v)] == [OpToken(op), Quoted(v)];
    }
  }

  lemma {:induction false} FreeMatcher(lib: Strconv, m: LabelMatcher)
    requires IsIdentifier(m.name) && !m.op.OtherOp? && PlainValue(lib, m.value)
    ensures Free(MatcherText(lib, m), MatcherTokens(m))
  {
    hide Free, Bounded;
    BoundedIdentifier(m.name);
    FreeOperatorValue(lib, m.op, m.value);
    BoundedThen(m.name, [Ident(m.name)], OpText(m.op) + Quote(lib, m.value), [OpToken(m.op), Quoted(m.value)]);
    assert m.name + (OpText(m.op) + Quote(lib, m.value)) == MatcherText(lib, m);
    assert [Ident(m.name)] + [OpToken(m.op), Quoted(m.value)] == MatcherTokens(m);
  }

  lemma {:induction false} FreeMatchers(lib: Strconv, ms: seq<LabelMatcher>)
    requires forall m <- ms :: IsIdentifier(m.name) && !m.op.OtherOp? && PlainValue(lib, m.value)
    requires ms != []
    ensures Free(MatchersText(lib, ms), MatchersTokens(ms))
  {
    hide Free, Bounded;
    FreeMatcher(lib, ms[0]);
    if |ms| > 1 {
      FreePunctuation(',');
      FreeMatchers(lib, ms[1..]);
      FreeThen(MatcherText(lib, ms[0]), MatcherTokens(ms[0]), ",", [Comma]);
      FreeThen(MatcherText(lib, ms[0]) + ",", MatcherTokens(ms[0]) + [Comma],
               MatchersText(lib, ms[1..]), MatchersTokens(ms[1..]));
    }
  }

  lemma {:induction false} LexSelector(lib: Strconv, s: Selector)
    requires SelectorShape(s) && SelectorPrintable(lib, s)
    ensures Bounded(SelectorText(lib, s), SelectorTokens(s))
  {
    hide Free, Bounded;
    BoundedIdentifier(s.metricName);
    if s.matchers != [] {
      FreePunctuation('{');
      FreePunctuation('}');
      FreeMatchers(lib, s.matchers);
      BoundedThen(s.metricName, [Ident(s.metricName)], "{", [LeftBrace]);
      assert [Ident(s.metricName)] + [LeftBrace] == [Ident(s.metricName), LeftBrace];
      FreeThen(s.metricName + "{", [Ident(s.metricName), LeftBrace], MatchersText(lib, s.matchers),
          MatchersTokens(s.matchers));
      FreeThen(s.metricName + "{" + MatchersText(lib, s.matchers),
               [Ident(s.metricName), LeftBrace] + MatchersTokens(s.matchers), "}", [RightBrace]);
      FreeIsBounded(SelectorText(lib, s), SelectorTokens(s));
    }
  }

  lemma {:induction false} LexLabels(groups: seq<string>)
    requires groups != [] && forall g <- groups :: IsIdentifier(g)
    ensures Bounded(LabelsText(groups), LabelsTokens(groups))
  {
    hide Free, Bounded;
    BoundedIdentifier(groups[0]);
    if |groups| > 1 {
      FreePunctuation(',');
      FreeSpace();
      FreeThen(",", [Comma], " ", []);
      assert "," + " " == ", " && [Comma] + [] == [Comma];
      LexLabels(groups[1..]);
      BoundedThen(groups[0], [Ident(groups[0])], ", ", [Comma]);
      assert [Ident(groups[0])] + [Comma] == [Ident(groups[0]), Comma];
      FreeThen(groups[0] + ", ", [Ident(groups[0]), Comma], LabelsText(groups[1..]), LabelsTokens(groups[1..]));
    }
  }

  // `a` then punctuation `c`, after something bounded.
  lemma {:induction false} ThenPunctuation(a: string, ta: seq<Token>, c: char)
    requires Bounded(a, ta) && Punctuation(c).Some?
    ensures Free(a + [c], ta + [Punctuation(c).value])
  {
    FreePunctuation(c);
    BoundedThen(a, ta, [c], [Punctuation(c).value]);
  }

  lemma {:induction false} SpaceParen()
    ensures Free(" (", [LeftParen])
    ensures Free(" / ", [Slash])
    ensures Free(", ", [Comma])
  {
    hide Free, Bounded;
    FreeSpace();
    FreePunctuation('(');
    FreePunctuation('/');
    FreePunctuation(',');
    FreeThen(" ", [], "(", [LeftParen]);
    assert " " + "(" == " (" && [] + [LeftParen] == [LeftParen];
    FreeThen(" ", [], "/", [Slash]);
    assert [] + [Slash] == [Slash];
    FreeThen(" " + "/", [Slash], " ", []);
    assert " " + "/" + " " == " / " && [Slash] + [] == [Slash];
    FreeThen(",", [Comma], " ", []);
    assert "," + " " == ", " && [Comma] + [] == [Comma];
  }

  lemma {:induction false} LexGroups(groups: seq<string>)
    requires forall g <- groups :: IsIdentifier(g)
    ensures Bounded(GroupsText(groups), GroupsTokens(groups))
  {
    hide Free, Bounded;
    BoundedIdentifier("sum");
    if groups != [] {
      SpaceParen();
      FreeSpace();
      BoundedIdentifier("by");
      FreeThen(" ", [], "by", [Ident("by")]);
      assert " " + "by" == " by" && [] + [Ident("by")] == [Ident("by")];
      BoundedThen(" by", [Ident("by")], " (", [LeftParen]);
      assert " by" + " (" == " by (" && [Ident("by")] + [LeftParen] == [Ident("by"), LeftParen];
      BoundedThen("sum", [Ident("sum")], " by (", [Ident("by"), LeftParen]);
      assert [Ident("sum")] + [Ident("by"), LeftParen] == [Ident("sum"), Ident("by"), LeftParen];
      LexLabels(groups);
      FreeThen("sum" + " by (", [Ident("sum"), Ident("by"), LeftParen], LabelsText(groups), LabelsTokens(groups));
      ThenPunctuation("sum" + " by (" + LabelsText(groups),
                      [Ident("sum"), Ident("by"), LeftParen] + LabelsTokens(groups), ')');
      FreeIsBounded(GroupsText(groups), GroupsTokens(groups));
    }
  }

  lemma {:induction false} LexRate(lib: Strconv, s: Selector, interval: string)
    requires SelectorShape(s) && SelectorPrintable(lib, s) && IsIdentifier(interval)
    ensures Bounded(Text(lib, Rate(s, interval)), ExprTokens(lib, Rate(s, interval)))
  {
    hide Free, Bounded;
    BoundedIdentifier("rate");
    ThenPunctuation("rate", [Ident("rate")], '(');
    assert "rate" + "(" == "rate(" && [Ident("rate")] + [LeftParen] == [Ident("rate"), LeftParen];
    LexSelector(lib, s);
    var head, theads := "rate(" + SelectorText(lib, s), [Ident("rate"), LeftParen] + SelectorTokens(s);
    FreeThen("rate(", [Ident("rate"), LeftParen], SelectorText(lib, s), SelectorTokens(s));
    FreePunctuation('[');
    BoundedIdentifier(interval);
    FreeThen("[", [LeftBracket], interval, [Ident(interval)]);
    assert [LeftBracket] + [Ident(interval)] == [LeftBracket, Ident(interval)];
    ThenPunctuation("[" + interval, [LeftBracket, Ident(interval)], ']');
    assert [LeftBracket, Ident(interval)] + [RightBracket] == [LeftBracket, Ident(interval), RightBracket];
    FreePunctuation(')');
    var tail, ttail := "[" + interval + "])", [LeftBracket, Ident(interval), RightBracket, RightParen];
    FreeThen("[" + interval + "]", [LeftBracket, Ident(interval), RightBracket], ")", [RightParen]);
    assert "[" + interval + "]" + ")" == tail;
    assert [LeftBracket, Ident(interval), RightBracket] + [RightParen] == ttail;
    BoundedThen(head, theads, tail, ttail);
    assert head + tail == Text(lib, Rate(s, interval));
    FreeIsBounded(head + tail, theads + ttail);
  }

  // An opening, an expression and a closing parenthesis.
  lemma {:induction false} LexWrapped(open: string, topen: seq<Token>, lib: Strconv, e: Expr)
    requires Shape(e) && Free(open, topen) && Bounded(Text(lib, e), ExprTokens(lib, e))
    ensures Free(open + Text(lib, e) + ")", topen + ExprTokens(lib, e) + [RightParen])
  {
    hide Free, Bounded;
    FreeThen(open, topen, Text(lib, e), ExprTokens(lib, e));
    ThenPunctuation(open + Text(lib, e), topen + ExprTokens(lib, e), ')');
  }

  lemma {:induction false} LexQuantile(lib: Strconv, q: real, inner: Expr)
    requires PlainNumber(lib, q) && Shape(inner) && Bounded(Text(lib, inner), ExprTokens(lib, inner))
    ensures Bounded(Text(lib, Quantile(q, inner)), ExprTokens(lib, Quantile(q, inner)))
  {
    hide Free, Bounded;
    assert "histogram_quantile" + "(" == "histogram_quantile(";
    BoundedIdentifier("histogram_quantile");
    LexCall("histogram_quantile", lib.formatFloat(q));
    LexWrapped("histogram_quantile" + "(" + lib.formatFloat(q) + ", ",
               [Ident("histogram_quantile"), LeftParen, Number(lib.formatFloat(q)), Comma], lib, inner);
    FreeIsBounded(Text(lib, Quantile(q, inner)), ExprTokens(lib, Quantile(q, inner)));
  }

  // A function name, `(`, a number, `, `.
  lemma {:induction false} LexCall(name: string, digits: string)
    requires IsIdentifier(name) && digits != "" && forall i :: 0 <= i < |digits| ==> IsNumberPart(digits[i])
    ensures Free(name + "(" + digits + ", ", [Ident(name), LeftParen, Number(digits), Comma])
  {
    hide Free, Bounded;
    BoundedIdentifier(name);
    ThenPunctuation(name, [Ident(name)], '(');
    assert [Ident(name)] + [LeftParen] == [Ident(name), LeftParen];
    BoundedNumber(digits);
    FreeThen(name + "(", [Ident(name), LeftParen], digits, [Number(digits)]);
    assert [Ident(name), LeftParen] + [Number(digits)] == [Ident(name), LeftParen, Number(digits)];
    SpaceParen();
    BoundedThen(name + "(" + digits, [Ident(name), LeftParen, Number(digits)], ", ", [Comma]);
    assert [Ident(name), LeftParen, Number(digits)] + [Comma] == [Ident(name), LeftParen, Number(digits), Comma];
  }

  lemma {:induction false} LexDivide(lib: Strconv, l: Expr, r: Expr)
    requires Shape(l) && Bounded(Text(lib, l), ExprTokens(lib, l))
    requires Shape(r) && Bounded(Text(lib, r), ExprTokens(lib, r))
    ensures Bounded(Text(lib, Divide(l, r)), ExprTokens(lib, Divide(l, r)))
  {
    hide Free, Bounded;
    FreePunctuation('(');
    SpaceParen();
    FreeThen("(", [LeftParen], Text(lib, l), ExprTokens(lib, l));
    BoundedThen("(" + Text(lib, l), [LeftParen] + ExprTokens(lib, l), " / ", [Slash]);
    LexWrapped("(" + Text(lib, l) + " / ", [LeftParen] + ExprTokens(lib, l) + [Slash], lib, r);
    FreeIsBounded(Text(lib, Divide(l, r)), ExprTokens(lib, Divide(l, r)));
  }

  lemma {:induction false} LexPrinted(lib: Strconv, e: Expr)
    requires Fits(lib, e)
    ensures Bounded(Text(lib, e), ExprTokens(lib, e))
  {
    hide Free, Bounded;
    match e
    case Select(s) => LexSelector(lib, s);
    case Rate(s, interval) => LexRate(lib, s, interval);
    case Sum(groups, inner) =>
      LexPrinted(lib, inner);
      LexGroups(groups);
      SpaceParen();
      BoundedThen(GroupsText(groups), GroupsTokens(groups), " (", [LeftParen]);
      LexWrapped(GroupsText(groups) + " (", GroupsTokens(groups) + [LeftParen], lib, inner);
      FreeIsBounded(Text(lib, e), ExprTokens(lib, e));
    case Quantile(q, inner) =>
      LexPrinted(lib, inner);
      LexQuantile(lib, q, inner);
    case Divide(l, r) =>
      LexPrinted(lib, l);
      LexPrinted(lib, r);
      LexDivide(lib, l, r);
    case Scalar(v) => BoundedNumber(lib.formatFloat(v));
  }
}
