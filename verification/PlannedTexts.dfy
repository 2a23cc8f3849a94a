/** The texts of the planner's queries, as the panels get them. */
module PlannedTexts {
  import opened Ordering
  import opened QueryTypes
  import opened QueryNames
  import opened QueryRender
  import opened QueryRoundTrip
  import opened Catalog
  import opened QueryPlanner
  import opened SelectorDomain
  import opened Families
  import opened FamilyQueries

  // ---- Matchers as text ----

  function Part(on: bool, text: string): seq<string> { if on then [text] else [] }

  function Braces(parts: seq<string>): string { if parts == [] then "" else "{" + JoinComma(parts) + "}" }

  function OperationPart(attributes: seq<string>, operation: string): seq<string>
  {
    Part("operation" in attributes && ValidOperationValue(operation), "operation=\"" + operation + "\"")
  }

  function ServicePart(attributes: seq<string>, service: string): seq<string>
  {
    Part("service" in attributes && service != "", "service=\"" + service + "\"")
  }

  const FailedPart := ["status=~\"" + ErrorStatusPattern + "\""]
  const FinitePart := ["le!=\"" + BucketBoundary + "\""]

  function MatcherTexts(lib: Strconv, ms: seq<LabelMatcher>): (r: seq<string>)
    ensures |r| == |ms|
  {
    if ms == [] then [] else [MatcherText(lib, ms[0])] + MatcherTexts(lib, ms[1..])
  }

  lemma {:induction false} Joined(lib: Strconv, ms: seq<LabelMatcher>)
    ensures MatchersText(lib, ms) == JoinComma(MatcherTexts(lib, ms))
  {
    hide MatcherText;
    if |ms| > 1 {
      Joined(lib, ms[1..]);
      assert MatcherTexts(lib, ms)[1..] == MatcherTexts(lib, ms[1..]);
    }
  }

  lemma {:induction false} SelectorParts(lib: Strconv, name: string, ms: seq<LabelMatcher>)
    ensures SelectorText(lib, Selector(name, ms)) == name + Braces(MatcherTexts(lib, ms))
  {
    Joined(lib, ms);
  }

  lemma {:induction false} PartsThen(lib: Strconv, xs: seq<LabelMatcher>, ys: seq<LabelMatcher>)
    ensures MatcherTexts(lib, xs + ys) == MatcherTexts(lib, xs) + MatcherTexts(lib, ys)
  {
    hide MatcherText;
    if xs == [] {
      assert xs + ys == ys;
    } else {
      PartsThen(lib, xs[1..], ys);
      assert (xs + ys)[1..] == xs[1..] + ys;
    }
  }

  lemma {:induction false} PlainText(lib: Strconv, m: LabelMatcher)
    requires PlainValue(lib, m.value)
    ensures MatcherText(lib, m) == m.name + OpText(m.op) + "\"" + m.value + "\""
    ensures MatcherTexts(lib, [m]) == [MatcherText(lib, m)]
  {
    QuotePlain(lib, m.value);
  }

  lemma {:induction false} ControlledIsPlain(lib: Strconv, v: string)
    requires ValidServiceValue(v) || ValidOperationValue(v) || v == ErrorStatusPattern || v == BucketBoundary
    ensures PlainValue(lib, v)
  {
  }

  // ---- The order of the matchers ----

  function OperationMatchers(attributes: seq<string>, operation: string): seq<LabelMatcher>
  {
    if "operation" in attributes && ValidOperationValue(operation) then [OperationMatcher(operation)] else []
  }

  function ServiceMatchers(attributes: seq<string>, service: string): seq<LabelMatcher>
  {
    if "service" in attributes && service != "" then [ServiceMatcher(service)] else []
  }

  // A comparison that goes by the names where they differ.
  ghost predicate GoesByName(leq: (LabelMatcher, LabelMatcher) -> bool)
  {
    && TotalPreorder(leq)
    && forall x: LabelMatcher, y: LabelMatcher :: x.name != y.name ==> (leq(x, y) <==> StringLeq(x.name, y.name))
  }

  // Up to three matchers with different names, in the order of the names.
  lemma {:induction false} Arranged(
    leq: (LabelMatcher, LabelMatcher) -> bool, ms: seq<LabelMatcher>,
    xs: seq<LabelMatcher>, ys: seq<LabelMatcher>, zs: seq<LabelMatcher>, a: string, b: string, c: string)
    requires GoesByName(leq) && multiset(ms) == multiset(xs + ys + zs) && |xs| <= 1 && |ys| <= 1 && |zs| <= 1
    requires (forall m <- xs :: m.name == a) && (forall m <- ys :: m.name == b) && (forall m <- zs :: m.name == c)
    requires StringLeq(a, b) && StringLeq(b, c) && a != b && b != c && a != c
    ensures SortBy(leq, ms) == xs + ys + zs
  {
    hide SortBy, StringLeq, NoTies, TotalPreorder;
    StringLeqTransitive(a, b, c);
    var all := xs + ys + zs;
    forall i, j | 0 <= i < j < |all| ensures leq(all[i], all[j]) {
      assert all[i] in xs || all[i] in ys;
    }
    SortBySorted(leq, ms);
    DifferentNames(leq, xs, ys, zs, a, b, c);
    SortedUnique(leq, SortBy(leq, ms), all);
  }

  lemma {:induction false} DifferentNames(
    leq: (LabelMatcher, LabelMatcher) -> bool, xs: seq<LabelMatcher>, ys: seq<LabelMatcher>, zs: seq<LabelMatcher>,
    a: string, b: string, c: string)
    requires GoesByName(leq) && |xs| <= 1 && |ys| <= 1 && |zs| <= 1 && a != b && b != c && a != c
    requires (forall m <- xs :: m.name == a) && (forall m <- ys :: m.name == b) && (forall m <- zs :: m.name == c)
    ensures NoTies(leq, multiset(xs + ys + zs))
  {
    hide StringLeq, TotalPreorder;
    var all := xs + ys + zs;
    forall x, y | x in multiset(all) && y in multiset(all) && leq(x, y) && leq(y, x) ensures x == y {
      if x.name != y.name { StringLeqAntisymmetric(x.name, y.name); }
      assert x in xs || x in ys || x in zs;
      assert y in xs || y in ys || y in zs;
    }
  }

  lemma {:induction false} BothGoByName()
    ensures GoesByName(LabelLeq) && GoesByName(MatcherLeq)
  {
    hide StringLeq;
    forall x, y ensures LabelLeq(x, y) || LabelLeq(y, x) { StringLeqTotal(x.name, y.name); }
    forall x, y, z | LabelLeq(x, y) && LabelLeq(y, z) ensures LabelLeq(x, z) {
      StringLeqTransitive(x.name, y.name, z.name);
    }
    MatcherOrder();
  }

  lemma {:induction false} NameOrder()
    ensures StringLeq("le", "operation") && StringLeq("operation", "service") && StringLeq("service", "status")
    ensures "le" != "operation" && "operation" != "service" && "service" != "status"
    ensures "le" != "service" && "operation" != "status"
  {
    assert "service"[1..] == "ervice" && "status"[1..] == "tatus";
    assert |"le"| == 2 && |"operation"| == 9 && |"service"| == 7 && |"status"| == 6;
  }

  lemma {:induction false} BaseIs(r: SignalReference, service: string, operation: string)
    ensures BaseMatchersOf(r, service, operation) ==
            ServiceMatchers(r.attributes, service) + OperationMatchers(r.attributes, operation)
    ensures |OperationMatchers(r.attributes, operation)| <= 1 && |ServiceMatchers(r.attributes, service)| <= 1
    ensures forall m <- OperationMatchers(r.attributes, operation) :: m.name == "operation"
    ensures forall m <- ServiceMatchers(r.attributes, service) :: m.name == "service"
  {
  }

  // The base matchers sorted on their own, with the status matcher and with the bucket matcher.
  lemma {:induction false} MatchersSorted(r: SignalReference, service: string, operation: string)
    ensures var o, s := OperationMatchers(r.attributes, operation), ServiceMatchers(r.attributes, service);
            var base := BaseMatchersOf(r, service, operation);
            && base == s + o
            && SortBy(LabelLeq, base) == o + s
            && SortBy(LabelLeq, base + [StatusMatcher]) == o + s + [StatusMatcher]
            && SortBy(LabelLeq, base + [BucketMatcher]) == [BucketMatcher] + o + s
  {
    BaseIs(r, service, operation);
    hide SortBy, LabelLeq, StringLeq, GoesByName, BaseMatchersOf, OperationMatchers, ServiceMatchers;
    NameOrder();
    BothGoByName();
    var o, s := OperationMatchers(r.attributes, operation), ServiceMatchers(r.attributes, service);
    var base := BaseMatchersOf(r, service, operation);
    assert o + s + [] == o + s;
    Arranged(LabelLeq, base, o, s, [], "operation", "service", "status");
    Arranged(LabelLeq, base + [StatusMatcher], o, s, [StatusMatcher], "operation", "service", "status");
    Arranged(LabelLeq, base + [BucketMatcher], [BucketMatcher], o, s, "le", "operation", "service");
  }

  // ---- The texts ----

  lemma {:induction false} FixedTexts(lib: Strconv)
    ensures MatcherTexts(lib, [StatusMatcher]) == FailedPart && MatcherTexts(lib, [BucketMatcher]) == FinitePart
  {
    hide PlainValue, MatcherText, MatcherTexts, ValidOperationValue, ValidServiceValue;
    ControlledIsPlain(lib, ErrorStatusPattern);
    ControlledIsPlain(lib, BucketBoundary);
    PlainText(lib, StatusMatcher);
    PlainText(lib, BucketMatcher);
    JoinThree("status", "=~", "\"");
    JoinThree("le", "!=", "\"");
    assert "status" + ("=~" + "\"") == "status=~\"" && "le" + ("!=" + "\"") == "le!=\"";
  }

  lemma {:induction false} JoinThree(x: string, y: string, z: string)
    ensures x + y + z == x + (y + z)
  {
  }

  lemma {:induction false} ValueText(lib: Strconv, name: string, value: string)
    requires ValidServiceValue(value) || ValidOperationValue(value)
    ensures MatcherTexts(lib, [LabelMatcher(name, MatchEqual, value)]) == [name + "=\"" + value + "\""]
  {
    hide PlainValue, MatcherText, MatcherTexts, ValidOperationValue, ValidServiceValue;
    ControlledIsPlain(lib, value);
    PlainText(lib, LabelMatcher(name, MatchEqual, value));
    Equation(name, value);
  }

  lemma {:induction false} PartTexts(lib: Strconv, attributes: seq<string>, service: string, operation: string)
    requires service == "" || ValidServiceValue(service)
    ensures MatcherTexts(lib, OperationMatchers(attributes, operation)) == OperationPart(attributes, operation)
    ensures MatcherTexts(lib, ServiceMatchers(attributes, service)) == ServicePart(attributes, service)
  {
    hide MatcherTexts, ValidOperationValue, ValidServiceValue;
    NoTexts(lib);
    if ValidOperationValue(operation) { OperationText(lib, operation); }
    if service != "" { ServiceText(lib, service); }
  }

  lemma {:induction false} OperationText(lib: Strconv, operation: string)
    requires ValidOperationValue(operation)
    ensures MatcherTexts(lib, [OperationMatcher(operation)]) == ["operation=\"" + operation + "\""]
  {
    hide MatcherTexts, ValidOperationValue;
    ValueText(lib, "operation", operation);
    assert "operation" + "=\"" == "operation=\"";
  }

  lemma {:induction false} ServiceText(lib: Strconv, service: string)
    requires ValidServiceValue(service)
    ensures MatcherTexts(lib, [ServiceMatcher(service)]) == ["service=\"" + service + "\""]
  {
    hide MatcherTexts, ValidServiceValue;
    ValueText(lib, "service", service);
    assert "service" + "=\"" == "service=\"";
  }

  lemma {:induction false} NoTexts(lib: Strconv)
    ensures MatcherTexts(lib, []) == []
  {
  }

  lemma {:induction false} Equation(name: string, value: string)
    ensures name + "=" + "\"" + value + "\"" == name + "=\"" + value + "\""
  {
    assert "=" + "\"" == "=\"";
  }

  function ByText(r: SignalReference): string
  {
    if "operation" in r.attributes then "sum by (operation) (" else "sum ("
  }

  lemma {:induction false} ByLabel(name: string)
    ensures GroupsText([name]) + " (" == "sum by (" + name + ") ("
  {
    assert "sum" + " by (" == "sum by (" && ")" + " (" == ") (";
  }

  lemma {:induction false} GroupTexts(r: SignalReference)
    ensures GroupsText(ByOperation(r)) + " (" == ByText(r)
    ensures GroupsText(["operation"]) + " (" == "sum by (operation) (" && GroupsText(["le"]) + " (" == "sum by (le) ("
  {
    hide GroupsText;
    ByLabel("operation");
    ByLabel("le");
    assert "sum by (" + "operation" + ") (" == "sum by (operation) (";
    assert "sum by (" + "le" + ") (" == "sum by (le) (";
    assert GroupsText([]) + " (" == "sum (" by { Ungrouped(); }
  }

  lemma {:induction false} Ungrouped()
    ensures GroupsText([]) + " (" == "sum ("
  {
  }

  function RateText(selector: string, interval: string): string { "rate(" + selector + "[" + interval + "])" }

  lemma {:induction false} SumRateText(lib: Strconv, groups: seq<string>, s: Selector, interval: string)
    ensures Text(lib, Sum(groups, Rate(s, interval))) ==
            GroupsText(groups) + " (" + RateText(SelectorText(lib, s), interval) + ")"
  {
    hide GroupsText, SelectorText;
  }

  // What the panels of an item ask for, character by character, for every metric, service and
  // operation the planner may choose.
  lemma {:induction false} PlansAreWritten(
    lib: Strconv, item: Item, service: string, interval: string, r: SignalReference, q: real)
    requires service == "" || ValidServiceValue(service)
    ensures var o, s := OperationPart(r.attributes, item.operation), ServicePart(r.attributes, service);
            && Text(lib, RatePlan(item, service, interval, r).expr) ==
               "sum by (operation) (" + RateText(r.name + Braces(o + s), interval) + ")"
            && Text(lib, ErrorRatioPlan(item, service, interval, r).expr) ==
               "(" + (ByText(r) + RateText(r.name + Braces(o + s + FailedPart), interval) + ")") + " / "
               + (ByText(r) + RateText(r.name + Braces(s + o), interval) + ")") + ")"
            && Text(lib, PercentilePlan(item, service, interval, r, q).expr) ==
               "histogram_quantile(" + lib.formatFloat(q) + ", "
               + ("sum by (le) (" + RateText(r.name + Braces(FinitePart + o + s), interval) + ")") + ")"
            && Text(lib, InFlightPlan(item, service, r).expr) == ByText(r) + (r.name + Braces(o + s)) + ")"
  {
    hide SortBy, LabelLeq, BaseMatchersOf, MatcherTexts, SelectorText, KindText, PurposeForQuantile, GroupsText, ByText;
    hide Braces, OperationPart, ServicePart, OperationMatchers, ServiceMatchers;
    var o, s := OperationMatchers(r.attributes, item.operation), ServiceMatchers(r.attributes, service);
    FixedTexts(lib);
    PartTexts(lib, r.attributes, service, item.operation);
    var plain := Selector(r.name, o + s);
    SumRateText(lib, ["operation"], plain, interval);
    SumRateText(lib, ByOperation(r), Selector(r.name, o + s + [StatusMatcher]), interval);
    SumRateText(lib, ByOperation(r), Selector(r.name, s + o), interval);
    SumRateText(lib, ["le"], Selector(r.name, [BucketMatcher] + o + s), interval);
    MatchersSorted(r, service, item.operation);
    GroupTexts(r);
    PartsThen(lib, o, s);
    PartsThen(lib, s, o);
    PartsThen(lib, o + s, [StatusMatcher]);
    PartsThen(lib, [BucketMatcher], o);
    PartsThen(lib, [BucketMatcher] + o, s);
    SelectorParts(lib, r.name, o + s);
    SelectorParts(lib, r.name, s + o);
    SelectorParts(lib, r.name, o + s + [StatusMatcher]);
    SelectorParts(lib, r.name, [BucketMatcher] + o + s);
  }

  lemma {:induction false} FamilySorted(f: Family, service: string)
    ensures var s := ServiceMatchers(f.attributes, service);
            && FamilySelector(f, service, []) == Selector(f.name, s)
            && FamilySelector(f, service, [StatusMatcher]) == Selector(f.name, s + [StatusMatcher])
            && FamilySelector(f, service, [BucketMatcher]) == Selector(f.name, [BucketMatcher] + s)
  {
    hide SortBy, MatcherLeq, StringLeq, GoesByName, FamilyMatchers;
    NameOrder();
    BothGoByName();
    var s := ServiceMatchers(f.attributes, service);
    ServiceNamed(f.attributes, service);
    hide ServiceMatchers;
    assert [] + s + [] == s + [] && [] + s + [StatusMatcher] == s + [StatusMatcher];
    assert [BucketMatcher] + [] + s == [BucketMatcher] + s;
    Arranged(MatcherLeq, s + [], [], s, [], "operation", "service", "status");
    Arranged(MatcherLeq, s + [StatusMatcher], [], s, [StatusMatcher], "operation", "service", "status");
    Arranged(MatcherLeq, s + [BucketMatcher], [BucketMatcher], [], s, "le", "operation", "service");
    assert s + [] == s;
    FamilyMatchersAre(f, service, []);
    FamilyMatchersAre(f, service, [StatusMatcher]);
    FamilyMatchersAre(f, service, [BucketMatcher]);
  }

  lemma {:induction false} ServiceNamed(attributes: seq<string>, service: string)
    ensures |ServiceMatchers(attributes, service)| <= 1
    ensures forall m <- ServiceMatchers(attributes, service) :: m.name == "service"
  {
  }

  lemma {:induction false} FamilyMatchersAre(f: Family, service: string, extra: seq<LabelMatcher>)
    ensures FamilyMatchers(f, service, extra) == ServiceMatchers(f.attributes, service) + extra
  {
  }

  // The same for the queries of a family, in the overview and the Kafka row.
  lemma {:induction false} FamilyQueriesAreWritten(lib: Strconv, f: Family, service: string, interval: string, q: real)
    requires service == "" || ValidServiceValue(service)
    ensures var s := ServicePart(f.attributes, service);
            var all := "sum by (operation) (" + RateText(f.name + Braces(s), interval) + ")";
            var failed := "sum by (operation) (" + RateText(f.name + Braces(s + FailedPart), interval) + ")";
            && Text(lib, RateExpr(f, service, interval)) == all
            && Text(lib, ErrorRatioExpr(f, service, interval)) == "(" + failed + " / " + all + ")"
            && Text(lib, PercentileExpr(f, service, interval, q)) ==
               "histogram_quantile(" + lib.formatFloat(q) + ", "
               + ("sum by (le) (" + RateText(f.name + Braces(FinitePart + s), interval) + ")") + ")"
            && Text(lib, InFlightExpr(f, service)) ==
               (if "operation" in f.attributes then "sum by (operation) (" else "sum (") + (f.name + Braces(s)) + ")"
            && Text(lib, TopFailingExpr(f, service, interval)) == failed
  {
    hide FamilySelector, SelectorText, GroupsText, MatcherTexts, Braces, ServicePart, ServiceMatchers;
    var s := ServiceMatchers(f.attributes, service);
    FixedTexts(lib);
    PartTexts(lib, f.attributes, service, "");
    FamilySorted(f, service);
    GroupTexts(SignalReference("", "", "", "", f.attributes));
    PartsThen(lib, s, [StatusMatcher]);
    PartsThen(lib, [BucketMatcher], s);
    SelectorParts(lib, f.name, s);
    SelectorParts(lib, f.name, s + [StatusMatcher]);
    SelectorParts(lib, f.name, [BucketMatcher] + s);
    SumRateText(lib, ["operation"], Selector(f.name, s), interval);
    SumRateText(lib, ["operation"], Selector(f.name, s + [StatusMatcher]), interval);
    SumRateText(lib, ["le"], Selector(f.name, [BucketMatcher] + s), interval);
  }
}
