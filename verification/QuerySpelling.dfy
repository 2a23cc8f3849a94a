/** The lexer of dashboard/query/parse.go against the spelling of tokens, and with the grammar:
    which texts are queries, and what they mean. */
module QuerySpelling {
  import opened Wrappers
  import opened QueryTypes
  import opened QueryLex
  import opened QueryParse
  import opened QueryRoundTrip
  import opened QueryGrammar

  predicate Gap(s: string) { forall i :: 0 <= i < |s| ==> s[i] in " \t\n\r" }

  predicate Spellable(t: Token)
  {
    match t
    case Ident(name) => IsIdentifier(name)
    case Number(digits) => digits != "" && forall i :: 0 <= i < |digits| ==> digits[i] in "0123456789."
    case Quoted(value) => StringSafe(value)
    case EOF => false
    case _ => true
  }

  function Spelling(t: Token): string
  {
    match t
    case Ident(name) => name
    case Number(digits) => digits
    case Quoted(value) => "\"" + value + "\""
    case LeftBrace => "{"
    case RightBrace => "}"
    case LeftParen => "("
    case RightParen => ")"
    case LeftBracket => "["
    case RightBracket => "]"
    case Comma => ","
    case Equal => "="
    case NotEqual => "!="
    case Regex => "=~"
    case Slash => "/"
    case EOF => ""
  }

  // What follows does not lengthen the token.
  predicate Apart(t: Token, rest: string)
  {
    match t
    case Ident(_) => rest == "" || !IsIdentPart(rest[0])
    case Number(_) => rest == "" || rest[0] !in "0123456789."
    case Equal => rest == "" || rest[0] != '~'
    case _ => true
  }

  // The text after `g` characters is `t` as spelled, and it ends there.
  predicate SpelledAt(s: string, g: nat, t: Token)
  {
    var n := |Spelling(t)|;
    Spellable(t) && g + n <= |s| && s[g..g + n] == Spelling(t) && Apart(t, s[g + n..])
  }

  // The tokens as spelled, with white space anywhere between them.
  ghost predicate Spells(s: string, ts: seq<Token>)
    decreases ts, 1
  {
    exists g: nat :: SpellsAfter(s, g, ts)
  }

  // The tokens as spelled after a gap of `g` characters.
  ghost predicate SpellsAfter(s: string, g: nat, ts: seq<Token>)
    decreases ts, 0
  {
    && g <= |s| && Gap(s[..g])
    && if ts == [] then g == |s| else SpelledAt(s, g, ts[0]) && Spells(s[g + |Spelling(ts[0])|..], ts[1..])
  }

  lemma {:induction false} NumberPart(c: char)
    ensures IsNumberPart(c) <==> c in "0123456789."
    ensures IsSpace(c) <==> c in " \t\n\r"
  {
    if IsNumberPart(c) && c != '.' {
      var digits := "0123456789.";
      assert digits[c as int - '0' as int] == c;
    }
  }

  // ---- A turn of the lexer takes one token as spelled ----

  lemma {:induction false} NumberStep(s: string)
    requires s != "" && IsNumberPart(s[0])
    ensures var n := Span(IsNumberPart, s);
            n > 0 && SpelledAt(s, 0, Number(s[..n])) && Step(s) == Emit([Number(s[..n])], n)
  {
    var n := Span(IsNumberPart, s);
    assert Span(IsNumberPart, s) == 1 + Span(IsNumberPart, s[1..]);
    forall i | 0 <= i < n ensures s[..n][i] in "0123456789." { NumberPart(s[i]); }
    if n < |s| { NumberPart(s[n]); }
    assert s[0..n] == s[..n];
  }

  lemma {:induction false} NameStep(s: string)
    requires s != "" && IsIdentStart(s[0])
    ensures var n := Span(IsIdentPart, s);
            n > 0 && SpelledAt(s, 0, Ident(s[..n])) && Step(s) == Emit([Ident(s[..n])], n)
  {
    var n := Span(IsIdentPart, s);
    assert Span(IsIdentPart, s) == 1 + Span(IsIdentPart, s[1..]);
    assert s[..n][0] == s[0] && s[0..n] == s[..n];
  }

  lemma {:induction false} QuotedStep(s: string)
    requires s != "" && s[0] == '"' && Step(s).Emit?
    ensures var n := Step(s).consumed;
            n >= 2 && Step(s).tokens == [Quoted(s[1..n - 1])] && SpelledAt(s, 0, Quoted(s[1..n - 1]))
  {
    var n := Step(s).consumed;
    assert s[1..][..n - 2] == s[1..n - 1];
    assert s[0..n] == "\"" + s[1..n - 1] + "\"";
  }

  lemma {:induction false} WordStep(s: string)
    requires s != "" && Step(s).Emit? && (s[0] == '"' || IsIdentStart(s[0]) || IsNumberPart(s[0]))
    ensures |Step(s).tokens| == 1 && SpelledAt(s, 0, Step(s).tokens[0])
    ensures Step(s).consumed == |Spelling(Step(s).tokens[0])|
  {
    hide SpelledAt;
    if s[0] == '"' {
      QuotedStep(s);
    } else if IsIdentStart(s[0]) {
      NameStep(s);
    } else {
      NumberStep(s);
    }
  }

  lemma {:induction false} StepSpells(s: string)
    requires s != "" && Step(s).Emit? && Step(s).consumed > 0
    ensures IsSpace(s[0]) ==> Step(s) == Emit([], 1)
    ensures !IsSpace(s[0]) ==>
              && |Step(s).tokens| == 1 && SpelledAt(s, 0, Step(s).tokens[0])
              && Step(s).consumed == |Spelling(Step(s).tokens[0])|
  {
    hide Span, ScanString;
    if s[0] == '"' || IsIdentStart(s[0]) || IsNumberPart(s[0]) {
      hide Step, SpelledAt;
      WordStep(s);
    } else if !IsSpace(s[0]) {
      assert s[0..1] == [s[0]];
      if |s| > 1 { assert s[0..2] == [s[0], s[1]]; }
    }
  }

  lemma {:induction false} AfterQuote(s: string, value: string, rest: string)
    requires s == "\"" + value + "\"" + rest
    ensures s[1..] == value + "\"" + rest
  {
    assert s == "\"" + (value + "\"" + rest);
  }

  lemma {:induction false} WordSteps(s: string, t: Token)
    requires SpelledAt(s, 0, t) && (t.Ident? || t.Number? || t.Quoted?)
    ensures s != "" && !IsSpace(s[0]) && Step(s) == Emit([t], |Spelling(t)|)
  {
    var n := |Spelling(t)|;
    assert s[..n] == Spelling(t) && s == Spelling(t) + s[n..];
    match t
    case Ident(name) => SpanAll(IsIdentPart, name, s[n..]);
    case Number(digits) =>
      forall i | 0 <= i < |digits| ensures IsNumberPart(digits[i]) { NumberPart(digits[i]); }
      if s[n..] != "" { NumberPart(s[n..][0]); }
      SpanAll(IsNumberPart, digits, s[n..]);
    case Quoted(value) =>
      AfterQuote(s, value, s[n..]);
      ScanPlain(value, s[n..]);
      assert s[1..][..|value|] == value;
  }

  lemma {:induction false} SpelledSteps(s: string, t: Token)
    requires SpelledAt(s, 0, t)
    ensures s != "" && !IsSpace(s[0]) && Step(s) == Emit([t], |Spelling(t)|)
  {
    hide Span, ScanString;
    if t.Ident? || t.Number? || t.Quoted? {
      hide Step, SpelledAt;
      WordSteps(s, t);
    } else {
      assert s[0..|Spelling(t)|] == Spelling(t);
      assert s[0] == Spelling(t)[0];
      if |Spelling(t)| > 1 { assert s[1] == Spelling(t)[1]; }
    }
  }

  // ---- The whole text ----

  lemma {:induction false} SkipGap(s: string, ts: seq<Token>)
    requires s != "" && IsSpace(s[0])
    ensures Spells(s, ts) <==> Spells(s[1..], ts)
  {
    hide SpellsAfter, Spells;
    if Spells(s, ts) {
      var g := SomeGap(s, ts);
      NoGap(s, g, ts);
      GapShifted(s, g - 1, ts);
      AnyGap(s[1..], g - 1, ts);
    }
    if Spells(s[1..], ts) {
      var g := SomeGap(s[1..], ts);
      GapShifted(s, g, ts);
      AnyGap(s, g + 1, ts);
    }
  }

  lemma {:induction false} AnyGap(s: string, g: nat, ts: seq<Token>)
    requires SpellsAfter(s, g, ts)
    ensures Spells(s, ts)
  {
  }

  // The gap before a text is empty exactly when the text does not begin with white space.
  lemma {:induction false} NoGap(s: string, g: nat, ts: seq<Token>)
    requires s != "" && SpellsAfter(s, g, ts)
    ensures g == 0 <==> !IsSpace(s[0])
    ensures g == 0 ==> ts != []
  {
    hide Step, Spells;
    NumberPart(s[0]);
    if g == 0 { SpelledSteps(s, ts[0]); } else { assert s[..g][0] == s[0]; }
  }

  lemma {:induction false} GapShifted(s: string, g: nat, ts: seq<Token>)
    requires s != "" && IsSpace(s[0])
    ensures SpellsAfter(s, g + 1, ts) <==> SpellsAfter(s[1..], g, ts)
  {
    hide Spells, SpelledAt;
    NumberPart(s[0]);
    if g < |s| {
      assert s[..g + 1] == [s[0]] + s[1..][..g];
      LongerGap(s[0], s[1..][..g]);
      if ts != [] {
        Shifted(s, g, ts[0]);
        if SpelledAt(s, g + 1, ts[0]) { InBounds(s, g + 1, ts[0]); }
      }
    }
  }

  lemma {:induction false} LongerGap(c: char, rest: string)
    requires c in " \t\n\r"
    ensures Gap([c] + rest) <==> Gap(rest)
  {
    assert forall i :: 0 <= i < |rest| ==> ([c] + rest)[i + 1] == rest[i];
  }

  lemma {:induction false} InBounds(s: string, g: nat, t: Token)
    requires SpelledAt(s, g, t)
    ensures 0 < |Spelling(t)| && g + |Spelling(t)| <= |s|
  {
  }

  lemma {:induction false} Shifted(s: string, g: nat, t: Token)
    requires s != ""
    ensures SpelledAt(s, g + 1, t) <==> SpelledAt(s[1..], g, t)
    ensures g + |Spelling(t)| < |s| ==> s[g + 1 + |Spelling(t)|..] == s[1..][g + |Spelling(t)|..]
  {
    hide Spellable, Spelling, Apart;
    var n := |Spelling(t)|;
    if g + n < |s| {
      assert s[g + 1..g + 1 + n] == s[1..][g..g + n];
      assert s[g + 1 + n..] == s[1..][g + n..];
    }
  }

  lemma {:induction false} TakeToken(s: string, t: Token, ts: seq<Token>)
    requires SpelledAt(s, 0, t) && Spells(s[|Spelling(t)|..], ts)
    ensures Spells(s, [t] + ts)
  {
    assert ([t] + ts)[1..] == ts && Gap(s[..0]);
    assert SpellsAfter(s, 0, [t] + ts);
  }

  lemma {:induction false} LexedSpells(s: string)
    requires LexAll(s).Tokens?
    ensures Spells(s, LexAll(s).tokens)
    decreases |s|
  {
    hide Step, Spells, Apart;
    if s == "" {
      assert Spells(s, []) by { NoText(); }
    } else {
      var n := Step(s).consumed;
      StepSpells(s);
      LexedSpells(s[n..]);
      if IsSpace(s[0]) {
        assert [] + LexAll(s[1..]).tokens == LexAll(s[1..]).tokens;
        SkipGap(s, LexAll(s).tokens);
      } else {
        var t := Step(s).tokens[0];
        assert Step(s).tokens == [t];
        TakeToken(s, t, LexAll(s[n..]).tokens);
      }
    }
  }

  lemma {:induction false} NoText()
    ensures Spells("", [])
  {
    assert SpellsAfter("", 0, []);
  }

  lemma {:induction false} SpelledLexes(s: string, ts: seq<Token>)
    requires Spells(s, ts)
    ensures LexAll(s) == Tokens(ts)
    decreases |s|
  {
    hide Step, SpelledAt, Spells;
    var g := SomeGap(s, ts);
    if s == "" {
      if ts != [] { SpelledSteps(s, ts[0]); }
    } else if IsSpace(s[0]) {
      SkipGap(s, ts);
      SpelledLexes(s[1..], ts);
      SpaceStep(s);
      assert [] + ts == ts;
    } else {
      NoGap(s, g, ts);
      SpelledSteps(s, ts[0]);
      InBounds(s, 0, ts[0]);
      SpelledLexes(s[|Spelling(ts[0])|..], ts[1..]);
      assert [ts[0]] + ts[1..] == ts;
    }
  }

  lemma {:induction false} SomeGap(s: string, ts: seq<Token>) returns (g: nat)
    requires Spells(s, ts)
    ensures SpellsAfter(s, g, ts)
  {
    g :| SpellsAfter(s, g, ts);
  }

  lemma {:induction false} SpaceStep(s: string)
    requires s != "" && IsSpace(s[0])
    ensures Step(s) == Emit([], 1)
  {
  }

  // The lexer answers these tokens exactly when the text spells them.
  lemma {:induction false} LexesExactlyWhen(s: string, ts: seq<Token>)
    ensures LexAll(s) == Tokens(ts) <==> Spells(s, ts)
  {
    hide LexAll, Spells;
    if LexAll(s) == Tokens(ts) { LexedSpells(s); }
    if Spells(s, ts) { SpelledLexes(s, ts); }
  }

  // Parse answers this tree exactly when the text spells a phrase that means it.
  lemma {:induction false} QueryExactlyWhen(lib: Strconv, text: string, e: Expr)
    ensures ParseSpec(lib, text) == Ok(e) <==> exists ts :: Spells(text, ts) && Means(lib, ts, e)
  {
    hide LexAll, Spells, Means, ParseTokens;
    if ParseSpec(lib, text) == Ok(e) {
      var ts := LexAll(text).tokens;
      LexesExactlyWhen(text, ts);
      ParsesExactlyWhen(lib, ts, e);
    }
    if ts :| Spells(text, ts) && Means(lib, ts, e) {
      LexesExactlyWhen(text, ts);
      ParsesExactlyWhen(lib, ts, e);
    }
  }
}
