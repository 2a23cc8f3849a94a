/** dashboard/query/validate.go, `sameSelectorDomain`: comparing two lists of selectors
    through sorted strings. */
module SelectorDomain {
  import opened Ordering
  import opened QueryTypes
  import opened QueryRender
  import opened QueryNames

  // ---- The order of matchers ----

  function OpCode(op: MatcherOp): int
  {
    match op
    case MatchEqual => 0
    case MatchNotEqual => 1
    case MatchRegex => 2
    case OtherOp(code) => code
  }

  // Label, then operator, then value.
  predicate MatcherLeq(a: LabelMatcher, b: LabelMatcher)
  {
    if a.name != b.name then StringLeq(a.name, b.name)
    else if OpCode(a.op) != OpCode(b.op) then OpCode(a.op) < OpCode(b.op)
    else StringLeq(a.value, b.value)
  }

  lemma {:induction false} MatcherOrder()
    ensures TotalPreorder(MatcherLeq)
  {
    forall a, b ensures MatcherLeq(a, b) || MatcherLeq(b, a) {
      StringLeqTotal(a.name, b.name);
      StringLeqTotal(a.value, b.value);
    }
    forall a, b, c | MatcherLeq(a, b) && MatcherLeq(b, c) ensures MatcherLeq(a, c) {
      MatcherLeqTransitive(a, b, c);
    }
  }

  lemma {:induction false} MatcherLeqTransitive(a: LabelMatcher, b: LabelMatcher, c: LabelMatcher)
    requires MatcherLeq(a, b) && MatcherLeq(b, c)
    ensures MatcherLeq(a, c)
  {
    hide StringLeq;
    if a.name == b.name == c.name {
      if OpCode(a.op) == OpCode(b.op) == OpCode(c.op) { StringLeqTransitive(a.value, b.value, c.value); }
    } else {
      if a.name != b.name && b.name != c.name { StringLeqTransitive(a.name, b.name, c.name); }
      if a.name == c.name { StringLeqAntisymmetric(a.name, b.name); }
    }
  }

  lemma {:induction false} MatcherNoTies(ms: multiset<LabelMatcher>)
    requires forall m <- ms :: !m.op.OtherOp?
    ensures NoTies(MatcherLeq, ms)
  {
    forall a, b | a in ms && b in ms && MatcherLeq(a, b) && MatcherLeq(b, a) ensures a == b {
      hide StringLeq;
      if a.name != b.name {
        StringLeqAntisymmetric(a.name, b.name);
      } else if a.value != b.value && OpCode(a.op) == OpCode(b.op) {
        StringLeqAntisymmetric(a.value, b.value);
      }
    }
  }

  // ---- The text of a selector's domain ----

  function NonStatus(ms: seq<LabelMatcher>): (r: seq<LabelMatcher>)
    ensures forall m :: m in r <==> m in ms && m.name != "status"
  {
    if ms == [] then []
    else (if ms[0].name != "status" then [ms[0]] else []) + NonStatus(ms[1..])
  }

  // renderMatchers.
  function MatcherDomain(m: LabelMatcher): string
  {
    "{" + m.name + OpText(m.op) + m.value + "}"
  }

  function MatchersDomain(ms: seq<LabelMatcher>): string
  {
    if ms == [] then "" else MatcherDomain(ms[0]) + MatchersDomain(ms[1..])
  }

  function Domain(s: Selector): string
  {
    s.metricName + MatchersDomain(SortBy(MatcherLeq, NonStatus(s.matchers)))
  }

  predicate SameDomain(left: seq<Selector>, right: seq<Selector>)
  {
    left != [] && right != [] && SortStrings(Apply(Domain, left)) == SortStrings(Apply(Domain, right))
  }

  // ---- The comparison ----

  lemma {:induction false} NonStatusSnoc(ms: seq<LabelMatcher>, m: LabelMatcher)
    ensures NonStatus(ms + [m]) == NonStatus(ms) + if m.name != "status" then [m] else []
  {
    if ms == [] {
      assert [m][1..] == [];
    } else {
      assert (ms + [m])[1..] == ms[1..] + [m];
      NonStatusSnoc(ms[1..], m);
    }
  }

  lemma {:induction false} MatchersDomainSnoc(ms: seq<LabelMatcher>, m: LabelMatcher)
    ensures MatchersDomain(ms + [m]) == MatchersDomain(ms) + MatcherDomain(m)
  {
    if ms == [] {
      assert [m][1..] == [];
    } else {
      assert (ms + [m])[1..] == ms[1..] + [m];
      MatchersDomainSnoc(ms[1..], m);
    }
  }

  method RenderMatchers(ms: seq<LabelMatcher>) returns (text: string)
    ensures text == MatchersDomain(ms)
  {
    text := "";
    for i := 0 to |ms|
      invariant text == MatchersDomain(ms[..i])
    {
      assert ms[..i + 1] == ms[..i] + [ms[i]];
      MatchersDomainSnoc(ms[..i], ms[i]);
      text := text + ("{" + ms[i].name + OpText(ms[i].op) + ms[i].value + "}");
    }
    assert ms[..|ms|] == ms;
  }

  method BaseMatchers(matchers: seq<LabelMatcher>) returns (base: seq<LabelMatcher>)
    ensures base == NonStatus(matchers)
  {
    base := [];
    for j := 0 to |matchers|
      invariant base == NonStatus(matchers[..j])
    {
      assert matchers[..j + 1] == matchers[..j] + [matchers[j]];
      NonStatusSnoc(matchers[..j], matchers[j]);
      if matchers[j].name != "status" { base := base + [matchers[j]]; }
    }
    assert matchers[..|matchers|] == matchers;
  }

  // One entry per selector: the matchers other than `status`, sorted and written out.
  method Normalize(selectors: seq<Selector>) returns (domains: seq<string>)
    ensures domains == SortStrings(Apply(Domain, selectors))
  {
    hide SortBy, NonStatus, MatchersDomain, SortStrings;
    domains := [];
    for i := 0 to |selectors|
      invariant |domains| == i
      invariant forall j :: 0 <= j < i ==> domains[j] == Domain(selectors[j])
    {
      var base := BaseMatchers(selectors[i].matchers);
      base := SortBy(MatcherLeq, base);
      var text := RenderMatchers(base);
      domains := domains + [selectors[i].metricName + text];
    }
    assert domains == Apply(Domain, selectors);
    domains := SortStrings(domains);
  }

  method SameSelectorDomain(left: seq<Selector>, right: seq<Selector>) returns (same: bool)
    ensures same == SameDomain(left, right)
  {
    hide SortStrings, Apply;
    if |left| == 0 || |right| == 0 { return false; }
    var leftDomain := Normalize(left);
    var rightDomain := Normalize(right);
    if |leftDomain| != |rightDomain| { return false; }
    for i := 0 to |leftDomain|
      invariant forall j :: 0 <= j < i ==> leftDomain[j] == rightDomain[j]
    {
      if leftDomain[i] != rightDomain[i] { return false; }
    }
    return true;
  }

  // ---- The text determines the domain ----

  // Two texts cut where a class of characters first appears are cut at the same place.
  lemma {:induction false} SplitAt(stop: char -> bool, a: string, x: string, b: string, y: string)
    requires a + x == b + y
    requires forall i :: 0 <= i < |a| ==> !stop(a[i])
    requires forall i :: 0 <= i < |b| ==> !stop(b[i])
    requires (x == "" || stop(x[0])) && (y == "" || stop(y[0]))
    ensures a == b && x == y
  {
    assert a == "" ==> a + x == x;
    assert b == "" ==> b + y == y;
    if a != "" && b != "" {
      assert (a + x)[0] == a[0] && (b + y)[0] == b[0];
      assert (a + x)[1..] == a[1..] + x && (b + y)[1..] == b[1..] + y;
      SplitAt(stop, a[1..], x, b[1..], y);
      assert a == [a[0]] + a[1..] && b == [b[0]] + b[1..];
    }
  }

  predicate StartsOperator(c: char) { c == '=' || c == '!' }

  predicate ClosesMatcher(c: char) { c == '}' }

  predicate OpensMatcher(c: char) { c == '{' }

  lemma {:induction false} VocabularyPlain(name: string)
    requires InVocabulary(name)
    ensures forall i :: 0 <= i < |name| ==> !StartsOperator(name[i])
  {
  }

  // Operator, value, the closing brace and what follows.
  function OpTail(m: LabelMatcher, tail: string): string
  {
    OpText(m.op) + (m.value + ("}" + tail))
  }

  lemma {:induction false} ValueCut(m: LabelMatcher, n: LabelMatcher, x: string, y: string)
    requires ControlledMatcher(m) && ControlledMatcher(n) && m.name == n.name && m.op == n.op
    requires m.value + ("}" + x) == n.value + ("}" + y)
    ensures m == n && x == y
  {
    if m.op.MatchRegex? {
      assert x == (m.value + ("}" + x))[|m.value| + 1..] && y == (n.value + ("}" + y))[|n.value| + 1..];
    } else {
      SplitAt(ClosesMatcher, m.value, "}" + x, n.value, "}" + y);
      assert x == ("}" + x)[1..] && y == ("}" + y)[1..];
    }
  }

  lemma {:induction false} ValueStart(m: LabelMatcher, x: string)
    requires ControlledMatcher(m) && !m.op.MatchRegex?
    ensures (m.value + ("}" + x))[0] != '~'
  {
    assert m.value[0] != '~';
    assert (m.value + ("}" + x))[0] == m.value[0];
  }

  lemma {:induction false} OperatorCut(m: LabelMatcher, n: LabelMatcher, x: string, y: string)
    requires ControlledMatcher(m) && ControlledMatcher(n) && m.name == n.name
    requires OpTail(m, x) == OpTail(n, y)
    ensures m == n && x == y
  {
    var v, w := m.value + ("}" + x), n.value + ("}" + y);
    assert OpTail(m, x) == OpText(m.op) + v && OpTail(n, y) == OpText(n.op) + w;
    if !m.op.MatchRegex? { ValueStart(m, x); }
    if !n.op.MatchRegex? { ValueStart(n, y); }
    OperatorsAgree(m.op, n.op, v, w);
    assert v == (OpText(m.op) + v)[|OpText(m.op)|..] && w == (OpText(n.op) + w)[|OpText(n.op)|..];
    ValueCut(m, n, x, y);
  }

  lemma {:induction false} OperatorsAgree(m: MatcherOp, n: MatcherOp, v: string, w: string)
    requires !m.OtherOp? && !n.OtherOp? && v != "" && w != ""
    requires (!m.MatchRegex? ==> v[0] != '~') && (!n.MatchRegex? ==> w[0] != '~')
    requires OpText(m) + v == OpText(n) + w
    ensures m == n
  {
    var a, b := OpText(m) + v, OpText(n) + w;
    assert a[0] == OpText(m)[0] && b[0] == OpText(n)[0];
    assert a[1] == (if |OpText(m)| == 2 then OpText(m)[1] else v[0]);
    assert b[1] == (if |OpText(n)| == 2 then OpText(n)[1] else w[0]);
  }

  lemma {:induction false} MatcherDomainShape(m: LabelMatcher, x: string)
    ensures MatcherDomain(m) + x == "{" + (m.name + OpTail(m, x))
  {
  }

  lemma {:induction false} MatchersDomainInjective(ms: seq<LabelMatcher>, ns: seq<LabelMatcher>)
    requires forall m <- ms :: ControlledMatcher(m)
    requires forall n <- ns :: ControlledMatcher(n)
    requires MatchersDomain(ms) == MatchersDomain(ns)
    ensures ms == ns
  {
    MatchersDomainEmpty(ms);
    MatchersDomainEmpty(ns);
    if ms != [] && ns != [] {
      var m, n, x, y := ms[0], ns[0], MatchersDomain(ms[1..]), MatchersDomain(ns[1..]);
      assert m in ms && n in ns;
      MatcherDomainShape(m, x);
      MatcherDomainShape(n, y);
      assert m.name + OpTail(m, x) == ("{" + (m.name + OpTail(m, x)))[1..];
      assert n.name + OpTail(n, y) == ("{" + (n.name + OpTail(n, y)))[1..];
      VocabularyPlain(m.name);
      VocabularyPlain(n.name);
      SplitAt(StartsOperator, m.name, OpTail(m, x), n.name, OpTail(n, y));
      OperatorCut(m, n, x, y);
      MatchersDomainInjective(ms[1..], ns[1..]);
      assert ms == [m] + ms[1..] && ns == [n] + ns[1..];
    }
  }

  lemma {:induction false} MatchersDomainEmpty(ms: seq<LabelMatcher>)
    ensures MatchersDomain(ms) == "" <==> ms == []
  {
    if ms != [] { assert MatcherDomain(ms[0]) != ""; }
  }

  lemma {:induction false} MatchersDomainStart(ms: seq<LabelMatcher>)
    ensures MatchersDomain(ms) == "" || OpensMatcher(MatchersDomain(ms)[0])
  {
    if ms != [] { MatcherDomainShape(ms[0], MatchersDomain(ms[1..])); }
  }

  // ---- What the comparison decides ----

  // A selector up to the order of its matchers and any `status` matcher.
  datatype Scope = Scope(metric: string, matchers: multiset<LabelMatcher>)

  ghost function ScopeOf(s: Selector): Scope
  {
    Scope(s.metricName, multiset(NonStatus(s.matchers)))
  }

  lemma {:induction false} DomainIsScope(s: Selector, t: Selector)
    requires ControlledSelector(s) && ControlledSelector(t)
    ensures Domain(s) == Domain(t) <==> ScopeOf(s) == ScopeOf(t)
  {
    hide MatcherDomain, MatchersDomain, SortBy, NonStatus, MatcherLeq, ControlledMatcher;
    var a, b := NonStatus(s.matchers), NonStatus(t.matchers);
    assert forall m <- a :: ControlledMatcher(m) && m in s.matchers;
    assert forall m <- b :: ControlledMatcher(m) && m in t.matchers;
    var x, y := SortBy(MatcherLeq, a), SortBy(MatcherLeq, b);
    SortMembers(a);
    SortMembers(b);
    ControlledOps(a);
    MatcherOrder();
    MatcherNoTies(multiset(a));
    SortByCanonical(MatcherLeq, a, b);
    if Domain(s) == Domain(t) {
      MatchersDomainStart(x);
      MatchersDomainStart(y);
      SplitAt(OpensMatcher, s.metricName, MatchersDomain(x), t.metricName, MatchersDomain(y));
      MatchersDomainInjective(x, y);
    }
  }

  lemma {:induction false} SortMembers(ms: seq<LabelMatcher>)
    ensures forall m <- SortBy(MatcherLeq, ms) :: m in ms
  {
    var x := SortBy(MatcherLeq, ms);
    forall m | m in x ensures m in ms {
      assert m in multiset(x);
      assert m in multiset(ms);
    }
  }

  lemma {:induction false} ControlledOps(ms: seq<LabelMatcher>)
    requires forall m <- ms :: ControlledMatcher(m)
    ensures forall m <- multiset(ms) :: !m.op.OtherOp?
  {
    forall m | m in multiset(ms) ensures !m.op.OtherOp? { assert m in ms; }
  }

  // On controlled selectors the comparison is equality of the non-empty lists as multisets of
  // scopes: order of selectors, order of matchers and status matchers do not count, and
  // nothing else is lost in the sorted, concatenated text.
  lemma {:induction false} SameDomainExactlyWhen(left: seq<Selector>, right: seq<Selector>)
    requires forall s <- left :: ControlledSelector(s)
    requires forall s <- right :: ControlledSelector(s)
    ensures SameDomain(left, right) <==>
              left != [] && right != [] && multiset(Apply(ScopeOf, left)) == multiset(Apply(ScopeOf, right))
  {
    forall s, t | s in left && t in right ensures Domain(s) == Domain(t) <==> ScopeOf(s) == ScopeOf(t) {
      DomainIsScope(s, t);
    }
    SortStringsCanonical(Apply(Domain, left), Apply(Domain, right));
    if multiset(Apply(Domain, left)) == multiset(Apply(Domain, right)) { SameImages(Domain, ScopeOf, left, right); }
    if multiset(Apply(ScopeOf, left)) == multiset(Apply(ScopeOf, right)) { SameImages(ScopeOf, Domain, left, right); }
  }

  // Outside the controlled values the text is ambiguous.
  lemma {:induction false} UncontrolledValuesCollide()
    ensures var s := Selector("m", [LabelMatcher("service", MatchEqual, "~x")]);
            var t := Selector("m", [LabelMatcher("service", MatchRegex, "x")]);
            SameDomain([s], [t]) && ScopeOf(s) != ScopeOf(t)
  {
    var m, n := LabelMatcher("service", MatchEqual, "~x"), LabelMatcher("service", MatchRegex, "x");
    var s, t := Selector("m", [m]), Selector("m", [n]);
    assert [m][1..] == [] && [n][1..] == [];
    assert NonStatus([m]) == [m];
    assert NonStatus([n]) == [n];
    assert SortBy(MatcherLeq, [m]) == [m] && SortBy(MatcherLeq, [n]) == [n];
    assert "=" + "~x" == "=~" + "x";
    assert MatcherDomain(m) == MatcherDomain(n);
    assert Domain(s) == Domain(t);
    assert Apply(Domain, [s]) == Apply(Domain, [t]);
    assert m in multiset([m]) && m !in multiset([n]);
  }
}
