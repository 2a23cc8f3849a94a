/** When the lexer's loop ends: the runs of dashboard/query/parse.go's `lex`, turn by turn. */
module QueryLexRuns {
  import opened QueryLex

  datatype State = Running(position: nat, tokens: seq<Token>) | Finished(tokens: seq<Token>) | Stopped

  // One turn of the loop, the loop test included.
  function Turn(text: string, s: State): State
  {
    match s
    case Running(p, ts) =>
      if p >= |text| then Finished(ts)
      else (match Step(text[p..])
            case Fail => Stopped
            case Emit(more, n) => Running(p + n, ts + more))
    case _ => s
  }

  function After(text: string, s: State, turns: nat): State
    decreases turns
  {
    if turns == 0 then s else After(text, Turn(text, s), turns - 1)
  }

  const Start := Running(0, [])

  lemma {:induction false} EndStays(text: string, s: State, turns: nat)
    requires !s.Running?
    ensures After(text, s, turns) == s
  {
    if turns > 0 { EndStays(text, s, turns - 1); }
  }

  lemma {:induction false} AfterAfter(text: string, s: State, n: nat, m: nat)
    ensures After(text, s, n + m) == After(text, After(text, s, n), m)
    decreases n
  {
    if n > 0 { AfterAfter(text, Turn(text, s), n - 1, m); }
  }

  lemma {:induction false} OneEnd(text: string, s: State, n: nat, m: nat)
    requires !After(text, s, n).Running? && !After(text, s, m).Running?
    ensures After(text, s, n) == After(text, s, m)
  {
    AfterAfter(text, s, n, m);
    AfterAfter(text, s, m, n);
    EndStays(text, After(text, s, n), m);
    EndStays(text, After(text, s, m), n);
  }

  function EndOf(r: LexResult): State
  {
    match r
    case Tokens(ts) => Finished(ts)
    case _ => Stopped
  }

  lemma {:induction false} Ends(text: string, p: nat, ts: seq<Token>) returns (n: nat)
    requires p <= |text| && LexAll(text[p..]) != Diverges
    ensures n > 0
    ensures After(text, Running(p, ts), n) == EndOf(Prepend(ts, LexAll(text[p..])))
    decreases |text| - p
  {
    hide Step;
    var s := Running(p, ts);
    if p == |text| {
      PrependNothing(ts);
      assert Turn(text, s) == Finished(ts);
      n := 1;
    } else {
      var step := Step(text[p..]);
      if step.Fail? {
        assert Turn(text, s) == Stopped;
        n := 1;
      } else {
        assert text[p..][step.consumed..] == text[p + step.consumed..];
        PrependTwice(ts, step.tokens, LexAll(text[p + step.consumed..]));
        var m := Ends(text, p + step.consumed, ts + step.tokens);
        assert Turn(text, s) == Running(p + step.consumed, ts + step.tokens);
        n := m + 1;
      }
    }
    OneTurn(text, s, n - 1);
  }

  lemma {:induction false} OneTurn(text: string, s: State, n: nat)
    ensures After(text, s, n + 1) == After(text, Turn(text, s), n)
  {
  }

  // The first turn of a run that lexes, and of one that does not end.
  lemma {:induction false} FirstTurn(s: string)
    requires LexAll(s) == Diverges || (s != "" && LexAll(s).Tokens?)
    ensures s != "" && Step(s).Emit?
    ensures LexAll(s).Tokens? ==> Step(s).consumed > 0 && LexAll(s[Step(s).consumed..]).Tokens?
    ensures LexAll(s) == Diverges ==> LexAll(s[Step(s).consumed..]) == Diverges
  {
    hide Step;
    if Step(s).Emit? && Step(s).consumed == 0 { assert s[0..] == s; }
  }

  lemma {:induction false} KeepsRunning(text: string, p: nat, ts: seq<Token>, n: nat)
    requires p <= |text| && LexAll(text[p..]) == Diverges
    ensures After(text, Running(p, ts), n).Running?
    decreases n
  {
    hide Step, LexAll;
    if n > 0 {
      FirstTurn(text[p..]);
      var step := Step(text[p..]);
      assert text[p..][step.consumed..] == text[p + step.consumed..];
      KeepsRunning(text, p + step.consumed, ts + step.tokens, n - 1);
      assert Turn(text, Running(p, ts)) == Running(p + step.consumed, ts + step.tokens);
      OneTurn(text, Running(p, ts), n - 1);
    }
  }

  // `LexAll` says how the loop ends, and whether it ends at all.
  lemma {:induction false} LoopEnds(text: string)
    ensures LexAll(text) == Diverges <==> forall n: nat :: After(text, Start, n).Running?
    ensures LexAll(text) == Failed <==> exists n: nat :: After(text, Start, n) == Stopped
    ensures forall ts :: LexAll(text) == Tokens(ts) <==> exists n: nat :: After(text, Start, n) == Finished(ts)
  {
    assert text[0..] == text;
    if LexAll(text) == Diverges {
      forall n: nat ensures After(text, Start, n).Running? { KeepsRunning(text, 0, [], n); }
    } else {
      var n := Ends(text, 0, []);
      assert forall rest: seq<Token> :: [] + rest == rest;
      assert !After(text, Start, n).Running?;
      forall m: nat | !After(text, Start, m).Running? ensures After(text, Start, m) == After(text, Start, n) {
        OneEnd(text, Start, n, m);
      }
    }
  }

  // ---- Exactly which texts keep it running ----

  predicate LoneBang(s: string)
  {
    s != "" && s[0] == '!' && !(|s| > 1 && s[1] == '=')
  }

  // A `!` without `=` right behind a prefix that lexes.
  ghost predicate ReachesLoneBang(text: string)
  {
    exists p: nat :: p <= |text| && LoneBang(text[p..]) && LexAll(text[..p]).Tokens?
  }

  lemma {:induction false} ScanExtends(a: string, b: string)
    requires ScanString(a).Some? || (ScanString(a + b).Some? && ScanString(a + b).value < |a|)
    ensures ScanString(a + b) == ScanString(a)
  {
    if a != "" {
      assert (a + b)[1..] == a[1..] + b;
      if a[0] !in {'"', '\\', '\n', '\r'} { ScanExtends(a[1..], b); }
    }
  }

  lemma {:induction false} SpanExtends(p: char -> bool, a: string, b: string)
    requires b == "" || !p(b[0])
    ensures Span(p, a + b) == Span(p, a)
  {
    if a == "" {
      assert a + b == b;
    } else {
      assert (a + b)[1..] == a[1..] + b;
      SpanExtends(p, a[1..], b);
    }
  }

  // No token runs across a `!`.
  lemma {:induction false} StepExtends(a: string, b: string)
    requires a != "" && LoneBang(b)
    requires (Step(a).Emit? && Step(a).consumed > 0) || (Step(a + b).Emit? && 0 < Step(a + b).consumed <= |a|)
    ensures Step(a + b) == Step(a)
  {
    assert (a + b)[1..] == a[1..] + b;
    if a[0] == '"' {
      ScanExtends(a[1..], b);
      if ScanString(a[1..]).Some? {
        var n := ScanString(a[1..]).value;
        assert (a[1..] + b)[..n] == a[1..][..n];
      }
    } else if IsIdentStart(a[0]) {
      SpanExtends(IsIdentPart, a, b);
      assert (a + b)[..Span(IsIdentPart, a)] == a[..Span(IsIdentPart, a)];
    } else if IsNumberPart(a[0]) {
      SpanExtends(IsNumberPart, a, b);
      assert (a + b)[..Span(IsNumberPart, a)] == a[..Span(IsNumberPart, a)];
    }
  }

  lemma {:induction false} LoneBangDiverges(a: string, b: string)
    requires LoneBang(b) && LexAll(a).Tokens?
    ensures LexAll(a + b) == Diverges
    decreases |a|
  {
    if a == "" {
      assert a + b == b;
    } else {
      StepExtends(a, b);
      var n := Step(a).consumed;
      assert (a + b)[n..] == a[n..] + b;
      LoneBangDiverges(a[n..], b);
    }
  }

  lemma {:induction false} DivergesAtLoneBang(s: string) returns (p: nat)
    requires LexAll(s) == Diverges
    ensures p <= |s| && LoneBang(s[p..]) && LexAll(s[..p]).Tokens?
    decreases |s|
  {
    var n := Step(s).consumed;
    if n == 0 {
      assert s[0..] == s;
      return 0;
    }
    var q := DivergesAtLoneBang(s[n..]);
    p := n + q;
    assert s[n..][q..] == s[p..];
    assert s[..p] + s[p..] == s;
    StepExtends(s[..p], s[p..]);
    assert s[..p][n..] == s[n..][..q];
  }

  lemma {:induction false} DivergesExactlyWhen(text: string)
    ensures LexAll(text) == Diverges <==> ReachesLoneBang(text)
  {
    hide LexAll, LoneBang;
    if LexAll(text) == Diverges {
      var p := DivergesAtLoneBang(text);
    }
    if ReachesLoneBang(text) {
      var p: nat :| p <= |text| && LoneBang(text[p..]) && LexAll(text[..p]).Tokens?;
      LoneBangDiverges(text[..p], text[p..]);
      assert text[..p] + text[p..] == text;
    }
  }

  // ---- A test on the text alone that rules it out ----

  function Quotes(s: string): nat
  {
    if s == "" then 0 else (if s[0] == '"' then 1 else 0) + Quotes(s[1..])
  }

  // Every `!` that stands outside a string is followed by `=`.
  predicate BangsPaired(text: string)
  {
    forall p :: 0 <= p < |text| && text[p] == '!' && Quotes(text[..p]) % 2 == 0 ==>
      p + 1 < |text| && text[p + 1] == '='
  }

  lemma {:induction false} QuotesAppend(a: string, b: string)
    ensures Quotes(a + b) == Quotes(a) + Quotes(b)
  {
    if a == "" {
      assert a + b == b;
    } else {
      assert (a + b)[1..] == a[1..] + b;
      QuotesAppend(a[1..], b);
    }
  }

  lemma {:induction false} NoQuotes(s: string)
    requires '"' !in s
    ensures Quotes(s) == 0
  {
    if s != "" { NoQuotes(s[1..]); }
  }

  lemma {:induction false} StepQuotes(s: string)
    requires s != "" && Step(s).Emit?
    ensures Quotes(s[..Step(s).consumed]) % 2 == 0
  {
    var n := Step(s).consumed;
    if s[0] == '"' {
      var body := s[1..][..n - 2];
      assert s[..n] == "\"" + (body + "\"");
      NoQuotes(body);
      QuotesAppend(body, "\"");
      QuotesAppend("\"", body + "\"");
      assert Quotes("\"") == 1;
    } else {
      NoQuotes(s[..n]);
    }
  }

  lemma {:induction false} LexedQuotes(s: string)
    requires LexAll(s).Tokens?
    ensures Quotes(s) % 2 == 0
    decreases |s|
  {
    hide Step, LexAll;
    if s != "" {
      FirstTurn(s);
      var n := Step(s).consumed;
      StepQuotes(s);
      LexedQuotes(s[n..]);
      QuotesAppend(s[..n], s[n..]);
      assert s[..n] + s[n..] == s;
    }
  }

  lemma {:induction false} PairedBangsEnd(text: string)
    requires BangsPaired(text)
    ensures LexAll(text) != Diverges
    ensures exists n: nat :: !After(text, Start, n).Running?
  {
    if LexAll(text) == Diverges {
      var p := DivergesAtLoneBang(text);
      LexedQuotes(text[..p]);
      assert false;
    }
    LoopEnds(text);
  }
}
