/** dashboard/query/parse.go: the lexer.

    One turn of the source's loop is `Step`. A `!` that is not followed by `=`
    appends a token and leaves the position where it is, so the source's loop
    does not end there: `LexAll` answers `Diverges`. */
module QueryLex {
  import opened Wrappers

  datatype Token =
    | Ident(name: string)
    | Number(digits: string)
    | Quoted(value: string)
    | LeftBrace | RightBrace
    | LeftParen | RightParen
    | LeftBracket | RightBracket
    | Comma | Equal | NotEqual | Regex | Slash
    | EOF

  // ---- Character classes ----

  predicate IsSpace(c: char) { c == ' ' || c == '\t' || c == '\n' || c == '\r' }

  predicate IsIdentStart(c: char)
  {
    'a' <= c <= 'z' || 'A' <= c <= 'Z' || c == '_' || c == '$'
  }

  predicate IsIdentPart(c: char) { IsIdentStart(c) || '0' <= c <= '9' || c == '-' }

  predicate IsNumberPart(c: char) { '0' <= c <= '9' || c == '.' }

  // The tokens written with one character.
  function Punctuation(c: char): Option<Token>
  {
    match c
    case '{' => Some(LeftBrace)
    case '}' => Some(RightBrace)
    case '(' => Some(LeftParen)
    case ')' => Some(RightParen)
    case '[' => Some(LeftBracket)
    case ']' => Some(RightBracket)
    case ',' => Some(Comma)
    case '/' => Some(Slash)
    case _ => None
  }

  // Length of the longest prefix whose characters all satisfy `p`.
  function Span(p: char -> bool, s: string): (n: nat)
    ensures n <= |s|
    ensures forall i :: 0 <= i < n ==> p(s[i])
    ensures n < |s| ==> !p(s[n])
  {
    if s == "" || !p(s[0]) then 0 else 1 + Span(p, s[1..])
  }

  // After an opening quote: the number of characters before the closing one.
  function ScanString(s: string): (r: Option<nat>)
    ensures r.Some? ==> r.value < |s| && s[r.value] == '"' && StringSafe(s[..r.value])
  {
    if s == "" || s[0] == '\\' then None
    else if s[0] == '"' then Some(0)
    else if s[0] == '\n' || s[0] == '\r' then None
    else
      match ScanString(s[1..])
      case None => None
      case Some(n) =>
        assert s[..n + 1] == [s[0]] + s[1..][..n];
        Some(n + 1)
  }

  predicate StringSafe(s: string)
  {
    forall i :: 0 <= i < |s| ==> s[i] !in {'"', '\\', '\n', '\r'}
  }

  // ---- One turn of the loop ----

  datatype StepResult = Emit(tokens: seq<Token>, consumed: nat) | Fail

  function Step(s: string): (r: StepResult)
    requires s != ""
    ensures r.Emit? ==> r.consumed <= |s|
    ensures r.Emit? && r.consumed == 0 <==> s[0] == '!' && !(|s| > 1 && s[1] == '=')
  {
    var c := s[0];
    if IsSpace(c) then Emit([], 1)
    else if Punctuation(c).Some? then Emit([Punctuation(c).value], 1)
    else if c == '"' then
      match ScanString(s[1..])
      case None => Fail
      case Some(n) => Emit([Quoted(s[1..][..n])], n + 2)
    else if c == '=' then
      if |s| > 1 && s[1] == '~' then Emit([Regex], 2) else Emit([Equal], 1)
    else if c == '!' then
      if |s| > 1 && s[1] == '=' then Emit([NotEqual], 2) else Emit([Ident("!")], 0)
    else if IsIdentStart(c) then
      var n := Span(IsIdentPart, s); Emit([Ident(s[..n])], n)
    else if IsNumberPart(c) then
      var n := Span(IsNumberPart, s); Emit([Number(s[..n])], n)
    else Fail
  }

  // ---- The whole run ----

  datatype LexResult = Tokens(tokens: seq<Token>) | Failed | Diverges

  function Prepend(ts: seq<Token>, r: LexResult): LexResult
  {
    match r
    case Tokens(rest) => Tokens(ts + rest)
    case _ => r
  }

  function LexAll(s: string): LexResult
    decreases |s|
  {
    if s == "" then Tokens([])
    else
      match Step(s)
      case Fail => Failed
      case Emit(ts, n) => if n == 0 then Diverges else Prepend(ts, LexAll(s[n..]))
  }

  // ---- The lexer ----

  method LexString(text: string, position: nat) returns (r: Option<nat>, value: string)
    requires position < |text|
    ensures r.Some? <==> ScanString(text[position + 1..]).Some?
    ensures r.Some? ==> r.value == position + 2 + ScanString(text[position + 1..]).value
    ensures r.Some? ==> value == text[position + 1..r.value - 1]
  {
    var at := position + 1;
    value := "";
    while at < |text|
      invariant position + 1 <= at <= |text|
      invariant value == text[position + 1..at]
      invariant ScanString(text[position + 1..]).Some? <==> ScanString(text[at..]).Some?
      invariant ScanString(text[at..]).Some? ==>
                  ScanString(text[position + 1..]).value == at - position - 1 + ScanString(text[at..]).value
    {
      var character := text[at];
      assert text[at..][1..] == text[at + 1..];
      if character == '\\' { return None, ""; }
      if character == '"' { return Some(at + 1), value; }
      if character == '\n' || character == '\r' { return None, ""; }
      value := value + [character];
      at := at + 1;
    }
    return None, "";
  }

  method SpanFrom(p: char -> bool, text: string, start: nat) returns (end: nat)
    requires start <= |text|
    ensures end == start + Span(p, text[start..])
  {
    end := start;
    while end < |text| && p(text[end])
      invariant start <= end <= |text|
      invariant Span(p, text[start..]) == end - start + Span(p, text[end..])
    {
      assert text[end..][1..] == text[end + 1..];
      end := end + 1;
    }
  }

  // The body of the source's loop: what is appended and by how much `position` moves.
  method Turn(text: string, position: nat) returns (r: StepResult)
    requires position < |text|
    ensures r == Step(text[position..])
  {
    ghost var rest := text[position..];
    var character := text[position];
    if IsSpace(character) {
      return Emit([], 1);
    } else if Punctuation(character).Some? {
      return Emit([Punctuation(character).value], 1);
    } else if character == '"' {
      var end, value := LexString(text, position);
      assert rest[1..] == text[position + 1..];
      if end.None? { return Fail; }
      assert text[position + 1..end.value - 1] == rest[1..][..end.value - position - 2];
      return Emit([Quoted(value)], end.value - position);
    } else if character == '=' {
      if position + 1 < |text| && text[position + 1] == '~' { return Emit([Regex], 2); }
      return Emit([Equal], 1);
    } else if character == '!' {
      if position + 1 < |text| && text[position + 1] == '=' { return Emit([NotEqual], 2); }
      return Emit([Ident("!")], 0);
    } else if IsIdentStart(character) {
      var end := SpanFrom(IsIdentPart, text, position);
      assert text[position..end] == rest[..end - position];
      return Emit([Ident(text[position..end])], end - position);
    } else if IsNumberPart(character) {
      var end := SpanFrom(IsNumberPart, text, position);
      assert text[position..end] == rest[..end - position];
      return Emit([Number(text[position..end])], end - position);
    }
    return Fail;
  }

  // The source's loop. It ends exactly when `LexAll` does not answer `Diverges`
  // (`QueryLexRuns.LoopEnds`), so that is what a caller has to know.
  method Lex(text: string) returns (r: Result<seq<Token>>)
    requires LexAll(text) != Diverges
    ensures r.Ok? ==> LexAll(text) == Tokens(r.value)
    ensures r.Err? ==> LexAll(text) == Failed
  {
    hide Step;
    var tokens := [];
    var position := 0;
    assert text[0..] == text;
    while position < |text|
      invariant position <= |text|
      invariant LexAll(text) == Prepend(tokens, LexAll(text[position..]))
    {
      var step := Turn(text, position);
      if step.Fail? { return Err; }
      assert text[position..][step.consumed..] == text[position + step.consumed..];
      PrependTwice(tokens, step.tokens, LexAll(text[position + step.consumed..]));
      tokens := tokens + step.tokens;
      position := position + step.consumed;
    }
    PrependNothing(tokens);
    return Ok(tokens);
  }

  lemma {:induction false} PrependTwice(a: seq<Token>, b: seq<Token>, r: LexResult)
    ensures Prepend(a, Prepend(b, r)) == Prepend(a + b, r)
  {
    if r.Tokens? { assert a + (b + r.tokens) == a + b + r.tokens; }
  }

  lemma {:induction false} PrependNothing(a: seq<Token>)
    ensures Prepend(a, Tokens([])) == Tokens(a)
  {
    assert a + [] == a;
  }
}
