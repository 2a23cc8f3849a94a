/** dashboard/query/parse.go: the recursive-descent parser.

    The functions read a token list and return what is left of it; the class
    `ExprParser` is the source's parser, which moves an index over one list. */
module QueryParse {
  import opened Wrappers
  import opened QueryTypes
  import opened QueryLex

  datatype Read<+T> = Got(value: T, rest: seq<Token>) | Bad

  function Head(ts: seq<Token>): Token
  {
    if ts == [] then EOF else ts[0]
  }

  function OperatorOf(t: Token): Option<MatcherOp>
  {
    match t
    case Equal => Some(MatchEqual)
    case NotEqual => Some(MatchNotEqual)
    case Regex => Some(MatchRegex)
    case _ => None
  }

  // One or more matchers separated by commas, up to but excluding the closing brace.
  function ParseMatchers(ts: seq<Token>): (r: Read<seq<LabelMatcher>>)
    ensures r.Got? ==> |r.rest| < |ts|
  {
    if |ts| < 3 || !ts[0].Ident? || OperatorOf(ts[1]).None? || !ts[2].Quoted? then Bad
    else
      var m := LabelMatcher(ts[0].name, OperatorOf(ts[1]).value, ts[2].value);
      if Head(ts[3..]) != Comma then Got([m], ts[3..])
      else
        match ParseMatchers(ts[4..])
        case Bad => Bad
        case Got(ms, rest) => Got([m] + ms, rest)
  }

  function PutBefore<T>(xs: seq<T>, p: Read<seq<T>>): Read<seq<T>>
  {
    match p
    case Bad => Bad
    case Got(more, rest) => Got(xs + more, rest)
  }

  lemma {:induction false} PutNothingBefore<T>(p: Read<seq<T>>)
    ensures PutBefore([], p) == p
  {
    if p.Got? { assert [] + p.value == p.value; }
  }

  lemma {:induction false} PutMoreBefore<T>(xs: seq<T>, x: T, p: Read<seq<T>>)
    ensures PutBefore(xs, PutBefore([x], p)) == PutBefore(xs + [x], p)
  {
    if p.Got? { assert xs + ([x] + p.value) == xs + [x] + p.value; }
  }

  function ParseSelector(ts: seq<Token>): (r: Read<Selector>)
    ensures r.Got? ==> |r.rest| < |ts|
  {
    if !Head(ts).Ident? then Bad
    else if Head(ts[1..]) != LeftBrace then Got(Selector(ts[0].name, []), ts[1..])
    else
      match ParseMatchers(ts[2..])
      case Bad => Bad
      case Got(ms, rest) => if Head(rest) != RightBrace then Bad else Got(Selector(ts[0].name, ms), rest[1..])
  }

  function ParseLabels(ts: seq<Token>): (r: Read<seq<string>>)
    ensures r.Got? ==> |r.rest| < |ts|
  {
    if !Head(ts).Ident? then Bad
    else if Head(ts[1..]) != Comma then Got([ts[0].name], ts[1..])
    else
      match ParseLabels(ts[2..])
      case Bad => Bad
      case Got(labels, rest) => Got([ts[0].name] + labels, rest)
  }

  // What follows `sum`: an optional non-empty `by (...)`.
  function ParseBy(ts: seq<Token>): (r: Read<seq<string>>)
    ensures r.Got? ==> |r.rest| <= |ts|
  {
    if Head(ts) != Ident("by") then Got([], ts)
    else if Head(ts[1..]) != LeftParen then Bad
    else
      match ParseLabels(ts[2..])
      case Bad => Bad
      case Got(labels, rest) => if Head(rest) != RightParen then Bad else Got(labels, rest[1..])
  }

  // What follows `rate`.
  function ParseRateBody(ts: seq<Token>): (r: Read<Expr>)
    ensures r.Got? ==> |r.rest| < |ts|
  {
    if Head(ts) != LeftParen then Bad
    else
      match ParseSelector(ts[1..])
      case Bad => Bad
      case Got(s, rest) =>
        if |rest| < 4 || rest[0] != LeftBracket || !rest[1].Ident? || rest[2] != RightBracket || rest[3] != RightParen
        then Bad
        else Got(Rate(s, rest[1].name), rest[4..])
  }

  // An expression between parentheses, the opening one included.
  function ParseParens(lib: Strconv, ts: seq<Token>): (r: Read<Expr>)
    ensures r.Got? ==> |r.rest| < |ts|
    decreases |ts|, 0
  {
    if Head(ts) != LeftParen then Bad else ParseClosed(lib, ts[1..])
  }

  // An expression and the closing parenthesis after it.
  function ParseClosed(lib: Strconv, ts: seq<Token>): (r: Read<Expr>)
    ensures r.Got? ==> |r.rest| < |ts|
    decreases |ts|, 4
  {
    match ParseExpression(lib, ts)
    case Bad => Bad
    case Got(e, rest) => if Head(rest) != RightParen then Bad else Got(e, rest[1..])
  }

  // What follows `sum`.
  function ParseSumBody(lib: Strconv, ts: seq<Token>): (r: Read<Expr>)
    ensures r.Got? ==> |r.rest| < |ts|
    decreases |ts|, 1
  {
    match ParseBy(ts)
    case Bad => Bad
    case Got(groups, rest) =>
      match ParseParens(lib, rest)
      case Bad => Bad
      case Got(e, rest') => Got(Sum(groups, e), rest')
  }

  // What follows `histogram_quantile`.
  function ParseQuantileBody(lib: Strconv, ts: seq<Token>): (r: Read<Expr>)
    ensures r.Got? ==> |r.rest| < |ts|
    decreases |ts|, 0
  {
    if |ts| < 3 || ts[0] != LeftParen || !ts[1].Number? || lib.parseFloat(ts[1].digits).None? || ts[2] != Comma then Bad
    else
      match ParseClosed(lib, ts[3..])
      case Bad => Bad
      case Got(e, rest) => Got(Quantile(lib.parseFloat(ts[1].digits).value, e), rest)
  }

  function ParseTerm(lib: Strconv, ts: seq<Token>): (r: Read<Expr>)
    ensures r.Got? ==> |r.rest| < |ts|
    decreases |ts|, 2
  {
    match Head(ts)
    case LeftParen => ParseParens(lib, ts)
    case Ident(name) =>
      if name == "sum" then ParseSumBody(lib, ts[1..])
      else if name == "rate" then ParseRateBody(ts[1..])
      else if name == "histogram_quantile" then ParseQuantileBody(lib, ts[1..])
      else if Head(ts[1..]) == LeftParen then Bad
      else (match ParseSelector(ts)
            case Bad => Bad
            case Got(s, rest) => Got(Select(s), rest))
    case Number(digits) =>
      (match lib.parseFloat(digits)
       case None => Bad
       case Some(v) => Got(Scalar(v), ts[1..]))
    case _ => Bad
  }

  // The divisions after a term, to the left.
  function ParseDivisions(lib: Strconv, left: Expr, ts: seq<Token>): (r: Read<Expr>)
    ensures r.Got? ==> |r.rest| <= |ts|
    decreases |ts|, 2
  {
    if Head(ts) != Slash then Got(left, ts)
    else
      match ParseTerm(lib, ts[1..])
      case Bad => Bad
      case Got(right, rest) => ParseDivisions(lib, Divide(left, right), rest)
  }

  function ParseExpression(lib: Strconv, ts: seq<Token>): (r: Read<Expr>)
    ensures r.Got? ==> |r.rest| < |ts|
    decreases |ts|, 3
  {
    match ParseTerm(lib, ts)
    case Bad => Bad
    case Got(left, rest) => ParseDivisions(lib, left, rest)
  }

  function ParseTokens(lib: Strconv, ts: seq<Token>): Result<Expr>
  {
    match ParseExpression(lib, ts)
    case Bad => Err
    case Got(e, rest) => if rest == [] then Ok(e) else Err
  }

  // What Parse answers on a text on which the lexer ends.
  function ParseSpec(lib: Strconv, text: string): Result<Expr>
  {
    match LexAll(text)
    case Tokens(ts) => ParseTokens(lib, ts)
    case _ => Err
  }

  // ---- The parser ----

  class ExprParser {
    const lib: Strconv
    const tokens: seq<Token>
    var index: nat

    constructor (lib: Strconv, tokens: seq<Token>)
      ensures this.lib == lib && this.tokens == tokens && index == 0
    {
      this.lib := lib;
      this.tokens := tokens;
      index := 0;
    }

    function Rest(): seq<Token>
      requires index <= |tokens|
      reads this
    {
      tokens[index..]
    }

    // `r` and the final position are what `p` says of the tokens from `start` on,
    // and the position has only moved forward, never past the end.
    ghost predicate Follows<T>(r: Result<T>, p: Read<T>, start: nat)
      reads this
    {
      && start <= index <= |tokens|
      && (r.Ok? ==> p == Got(r.value, Rest()))
      && (r.Err? ==> p == Bad)
    }

    predicate Done()
      reads this
    {
      index >= |tokens|
    }

    function Peek(): (t: Token)
      requires index <= |tokens|
      reads this
      ensures t == Head(Rest())
    {
      if index >= |tokens| then EOF else tokens[index]
    }

    function PeekAt(offset: nat): (t: Token)
      requires index <= |tokens|
      reads this
      ensures offset == 1 && index < |tokens| ==> t == Head(Rest()[1..])
    {
      var position := index + offset;
      if position >= |tokens| then EOF else tokens[position]
    }

    method Advance() returns (t: Token)
      requires index <= |tokens|
      modifies this`index
      ensures t == Head(old(Rest()))
      ensures index == if old(index) < |tokens| then old(index) + 1 else old(index)
      ensures old(Rest()) != [] ==> Rest() == old(Rest())[1..]
    {
      t := Peek();
      if index < |tokens| { index := index + 1; }
    }

    method Expect(t: Token) returns (ok: bool)
      requires index <= |tokens| && t != EOF
      modifies this`index
      ensures ok <==> Head(old(Rest())) == t
      ensures ok ==> old(index) < |tokens| && index == old(index) + 1 && Rest() == old(Rest())[1..]
      ensures !ok ==> index == old(index)
    {
      ok := Peek() == t;
      if ok { var _ := Advance(); }
    }

    method ParseMatcherList() returns (r: Result<seq<LabelMatcher>>)
      requires index <= |tokens|
      modifies this`index
      ensures Follows(r, ParseMatchers(old(Rest())), old(index))
    {
      hide OperatorOf;
      ghost var start := Rest();
      var ms: seq<LabelMatcher> := [];
      PutNothingBefore(ParseMatchers(start));
      while true
        invariant old(index) <= index <= |tokens|
        invariant ParseMatchers(start) == PutBefore(ms, ParseMatchers(Rest()))
        decreases |tokens| - index
      {
        ghost var here := Rest();
        var name := Peek();
        if !name.Ident? { return Err; }
        var _ := Advance();
        var operator := Advance();
        assert |here| > 1 ==> operator == here[1];
        if OperatorOf(operator).None? { return Err; }
        var value := Peek();
        assert |here| > 2 ==> value == here[2];
        if !value.Quoted? { return Err; }
        var _ := Advance();
        assert Rest() == here[3..];
        var m := LabelMatcher(name.name, OperatorOf(operator).value, value.value);
        if Peek() != Comma {
          return Ok(ms + [m]);
        }
        var _ := Advance();
        assert Rest() == here[4..];
        assert ParseMatchers(here) == PutBefore([m], ParseMatchers(here[4..]));
        PutMoreBefore(ms, m, ParseMatchers(here[4..]));
        ms := ms + [m];
      }
    }

    method ParseSelectorHere() returns (r: Result<Selector>)
      requires index <= |tokens|
      modifies this`index
      ensures Follows(r, ParseSelector(old(Rest())), old(index))
    {
      ghost var start := Rest();
      var name := Advance();
      if !name.Ident? { return Err; }
      assert Rest() == start[1..];
      if Peek() != LeftBrace { return Ok(Selector(name.name, [])); }
      var _ := Advance();
      assert Rest() == start[2..];
      var ms := ParseMatcherList();
      if ms.Err? { return Err; }
      var closed := Expect(RightBrace);
      if !closed { return Err; }
      return Ok(Selector(name.name, ms.value));
    }

    method ParseLabelList() returns (r: Result<seq<string>>)
      requires index <= |tokens|
      modifies this`index
      ensures Follows(r, ParseLabels(old(Rest())), old(index))
    {
      ghost var start := Rest();
      var labels: seq<string> := [];
      assert forall more: seq<string> :: labels + more == more;
      while true
        invariant old(index) <= index <= |tokens|
        invariant ParseLabels(start) ==
                  match ParseLabels(Rest())
                  case Bad => Bad
                  case Got(more, rest) => Got(labels + more, rest)
        decreases |tokens| - index
      {
        ghost var here := Rest();
        var name := Peek();
        if !name.Ident? { return Err; }
        var _ := Advance();
        assert Rest() == here[1..];
        if Peek() != Comma { return Ok(labels + [name.name]); }
        var _ := Advance();
        assert Rest() == here[2..];
        assert forall more: seq<string> :: labels + ([name.name] + more) == labels + [name.name] + more;
        labels := labels + [name.name];
      }
    }

    method ParseByHere() returns (r: Result<seq<string>>)
      requires index <= |tokens|
      modifies this`index
      ensures Follows(r, ParseBy(old(Rest())), old(index))
    {
      ghost var start := Rest();
      if Peek() != Ident("by") { return Ok([]); }
      var _ := Advance();
      var begun := Expect(LeftParen);
      if !begun { return Err; }
      assert Rest() == start[2..];
      var labels := ParseLabelList();
      if labels.Err? { return Err; }
      var closed := Expect(RightParen);
      if !closed { return Err; }
      return labels;
    }

    // "rate" is the current token.
    method ParseRate() returns (r: Result<Expr>)
      requires index < |tokens|
      modifies this`index
      ensures Follows(r, ParseRateBody(old(Rest())[1..]), old(index))
    {
      ghost var start := Rest();
      var _ := Advance();
      var ok := Expect(LeftParen);
      if !ok { return Err; }
      assert Rest() == start[1..][1..];
      var s := ParseSelectorHere();
      if s.Err? { return Err; }
      ghost var rest := Rest();
      ok := Expect(LeftBracket);
      if !ok { return Err; }
      var interval := Peek();
      assert |rest| > 1 ==> interval == rest[1];
      if !interval.Ident? { return Err; }
      var _ := Advance();
      ok := Expect(RightBracket);
      if !ok { return Err; }
      ok := Expect(RightParen);
      if !ok { return Err; }
      assert Rest() == rest[4..];
      return Ok(Rate(s.value, interval.name));
    }

    method ParseParensHere() returns (r: Result<Expr>)
      requires index <= |tokens|
      modifies this`index
      ensures Follows(r, ParseParens(lib, old(Rest())), old(index))
      decreases |tokens| - index, 0
    {
      var ok := Expect(LeftParen);
      if !ok { return Err; }
      r := ParseClosedHere();
    }

    method ParseClosedHere() returns (r: Result<Expr>)
      requires index <= |tokens|
      modifies this`index
      ensures Follows(r, ParseClosed(lib, old(Rest())), old(index))
      decreases |tokens| - index, 4
    {
      var inner := ParseExpr();
      if inner.Err? { return Err; }
      var ok := Expect(RightParen);
      if !ok { return Err; }
      return inner;
    }

    // "sum" is the current token.
    method ParseAggregation() returns (r: Result<Expr>)
      requires index < |tokens|
      modifies this`index
      ensures Follows(r, ParseSumBody(lib, old(Rest())[1..]), old(index))
      decreases |tokens| - index, 1
    {
      var _ := Advance();
      var groups := ParseByHere();
      if groups.Err? { return Err; }
      var inner := ParseParensHere();
      if inner.Err? { return Err; }
      return Ok(Sum(groups.value, inner.value));
    }

    // "histogram_quantile" is the current token.
    method ParseQuantile() returns (r: Result<Expr>)
      requires index < |tokens|
      modifies this`index
      ensures Follows(r, ParseQuantileBody(lib, old(Rest())[1..]), old(index))
      decreases |tokens| - index, 1
    {
      ghost var start := Rest();
      var _ := Advance();
      ghost var rest := Rest();
      var ok := Expect(LeftParen);
      if !ok { return Err; }
      var number := Peek();
      assert |rest| > 1 ==> number == rest[1];
      if !number.Number? { return Err; }
      var _ := Advance();
      var quantile := lib.parseFloat(number.digits);
      if quantile.None? { return Err; }
      ok := Expect(Comma);
      if !ok { return Err; }
      assert Rest() == rest[3..];
      var inner := ParseClosedHere();
      if inner.Err? { return Err; }
      return Ok(Quantile(quantile.value, inner.value));
    }

    method ParseTermHere() returns (r: Result<Expr>)
      requires index <= |tokens|
      modifies this`index
      ensures Follows(r, ParseTerm(lib, old(Rest())), old(index))
      decreases |tokens| - index, 2
    {
      var current := Peek();
      match current {
        case LeftParen =>
          r := ParseParensHere();
        case Ident(name) =>
          if name == "sum" {
            r := ParseAggregation();
          } else if name == "rate" {
            r := ParseRate();
          } else if name == "histogram_quantile" {
            r := ParseQuantile();
          } else if PeekAt(1) == LeftParen {
            return Err;
          } else {
            var s := ParseSelectorHere();
            if s.Err? { return Err; }
            return Ok(Select(s.value));
          }
        case Number(digits) =>
          var _ := Advance();
          var value := lib.parseFloat(digits);
          if value.None? { return Err; }
          return Ok(Scalar(value.value));
        case _ =>
          return Err;
      }
    }

    method ParseExpr() returns (r: Result<Expr>)
      requires index <= |tokens|
      modifies this`index
      ensures Follows(r, ParseExpression(lib, old(Rest())), old(index))
      decreases |tokens| - index, 3
    {
      ghost var start := Rest();
      var first := ParseTermHere();
      if first.Err? { return Err; }
      var left := first.value;
      while Peek() == Slash
        invariant old(index) < index <= |tokens|
        invariant ParseExpression(lib, start) == ParseDivisions(lib, left, Rest())
        decreases |tokens| - index
      {
        var _ := Advance();
        var right := ParseTermHere();
        if right.Err? { return Err; }
        left := Divide(left, right.value);
      }
      return Ok(left);
    }
  }

  method Parse(lib: Strconv, text: string) returns (r: Result<Expr>)
    requires LexAll(text) != Diverges
    ensures r == ParseSpec(lib, text)
  {
    var tokens := Lex(text);
    if tokens.Err? { return Err; }
    var parser := new ExprParser(lib, tokens.value);
    var expression := parser.ParseExpr();
    if expression.Err? { return Err; }
    if !parser.Done() { return Err; }
    return expression;
  }
}
