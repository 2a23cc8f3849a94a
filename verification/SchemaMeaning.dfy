/** What the supported keywords mean, and when the checker's verdict is that meaning.
    Sections are those of JSON Schema Validation draft-07 unless another document is named. */
module SchemaMeaning {
  import opened Wrappers
  import opened Json
  import opened SchemaCheck

  // ---- jsonEqual decides equality of JSON values ----

  lemma {:induction false} SubsetOfSameSize(a: set<string>, b: set<string>)
    requires a <= b && |a| == |b|
    ensures a == b
    decreases a
  {
    if a != {} {
      var x :| x in a;
      SubsetOfSameSize(a - {x}, b - {x});
    }
  }

  lemma {:induction false} JsonEqualIsEquality(left: Json, right: Json)
    ensures JsonEqual(left, right) <==> left == right
    decreases left
  {
    match left
    case Object(l) =>
      if right.Object? {
        forall k | k in l && k in right.fields ensures JsonEqual(l[k], right.fields[k]) <==> l[k] == right.fields[k] {
          JsonEqualIsEquality(l[k], right.fields[k]);
        }
        if JsonEqual(left, right) {
          SubsetOfSameSize(l.Keys, right.fields.Keys);
          assert l == right.fields;
        }
      }
    case Array(l) =>
      if right.Array? {
        forall i | 0 <= i < |l| && i < |right.items|
          ensures JsonEqual(l[i], right.items[i]) <==> l[i] == right.items[i]
        {
          JsonEqualIsEquality(l[i], right.items[i]);
        }
        if JsonEqual(left, right) { assert l == right.items; }
      }
    case _ =>
  }

  // ---- The assertions that look at one value ----

  function Whole(k: int): Json { Number(k as real) }

  // 6.1.1 type: a number is an integer when it has no fraction; an unknown name says nothing.
  ghost predicate HasType(name: string, d: Json)
  {
    && (name == "null" ==> d == Null)
    && (name == "boolean" ==> d == Bool(true) || d == Bool(false))
    && (name == "number" ==> d.Number?)
    && (name == "integer" ==> exists k: int :: d == Whole(k))
    && (name == "string" ==> d.Text?)
    && (name == "array" ==> d.Array?)
    && (name == "object" ==> d.Object?)
  }

  lemma {:induction false} TypeMeans(name: string, d: Json)
    ensures TypeHolds(name, d) <==> HasType(name, d)
  {
    if name == "integer" {
      if TypeHolds(name, d) { assert d == Whole(d.n.Floor); }
      if k: int :| d == Whole(k) { assert d.n.Floor == k; }
    }
  }

  // 6.1.1 type, 6.1.2 enum, 6.1.3 const.
  ghost predicate AnyAssertions(s: map<string, Json>, d: Json)
  {
    && ("type" in s && s["type"].Text? ==> HasType(s["type"].s, d))
    && ("enum" in s && s["enum"].Array? ==> d in s["enum"].items)
    && ("const" in s ==> d == s["const"])
  }

  // 6.2.2 to 6.2.5 maximum, exclusiveMaximum, minimum, exclusiveMinimum.
  ghost predicate NumberAssertions(s: map<string, Json>, n: real)
  {
    && ("maximum" in s && s["maximum"].Number? ==> n <= s["maximum"].n)
    && ("exclusiveMaximum" in s && s["exclusiveMaximum"].Number? ==> n < s["exclusiveMaximum"].n)
    && ("minimum" in s && s["minimum"].Number? ==> n >= s["minimum"].n)
    && ("exclusiveMinimum" in s && s["exclusiveMinimum"].Number? ==> n > s["exclusiveMinimum"].n)
  }

  // 6.3.2 minLength, 6.3.3 pattern.
  ghost predicate TextAssertions(s: map<string, Json>, regexp: Regexp, text: string)
  {
    && ("minLength" in s && s["minLength"].Number? ==> |text| as real >= s["minLength"].n)
    && ("pattern" in s && s["pattern"].Text? ==> regexp(s["pattern"].s, text) == Some(true))
  }

  // 6.4.4 minItems, 6.4.5 uniqueItems.
  ghost predicate ArrayAssertions(s: map<string, Json>, items: seq<Json>)
  {
    && ("minItems" in s && s["minItems"].Number? ==> |items| as real >= s["minItems"].n)
    && ("uniqueItems" in s && s["uniqueItems"] == Bool(true) ==>
          forall i, j :: 0 <= i < |items| && 0 <= j < |items| && items[i] == items[j] ==> i == j)
  }

  // 6.5.3 required, and the boolean form of 6.5.6 additionalProperties.
  ghost predicate ObjectAssertions(s: map<string, Json>, fields: map<string, Json>)
  {
    && ("required" in s && s["required"].Array? ==>
          forall name: string :: Text(name) in s["required"].items ==> name in fields)
    && ("additionalProperties" in s && s["additionalProperties"] == Bool(false) ==>
          fields.Keys <= if "properties" in s && s["properties"].Object? then s["properties"].fields.Keys else {})
  }

  ghost predicate Assertions(c: Context, s: map<string, Json>, d: Json)
  {
    && AnyAssertions(s, d)
    && (d.Number? ==> NumberAssertions(s, d.n))
    && (d.Text? ==> TextAssertions(s, c.regexp, d.s))
    && (d.Array? ==> ArrayAssertions(s, d.items))
    && (d.Object? ==> ObjectAssertions(s, d.fields))
  }

  predicate ChecksAssertions(c: Context, s: Json, d: Json)
  {
    && CheckType(s, d) && CheckEnum(s, d) && CheckText(c, s, d) && CheckNumber(s, d)
    && (d.Array? ==> CheckSize(s, d.items))
    && (d.Object? ==> CheckRequired(s, d.fields) && CheckAdditional(s, d.fields))
  }

  lemma {:induction false} EnumMeans(s: Json, d: Json)
    requires s.Object?
    ensures CheckType(s, d) && CheckEnum(s, d) <==> AnyAssertions(s.fields, d)
  {
    hide TypeHolds, HasType;
    if "type" in s.fields && s.fields["type"].Text? { TypeMeans(s.fields["type"].s, d); }
    forall x: Json ensures JsonEqual(x, d) <==> x == d { JsonEqualIsEquality(x, d); }
  }

  lemma {:induction false} SizeMeans(s: Json, items: seq<Json>)
    requires s.Object?
    ensures CheckSize(s, items) <==> ArrayAssertions(s.fields, items)
  {
    forall i, j | 0 <= i < j < |items| ensures JsonEqual(items[i], items[j]) <==> items[i] == items[j] {
      JsonEqualIsEquality(items[i], items[j]);
    }
  }

  lemma {:induction false} ObjectMeans(s: Json, fields: map<string, Json>)
    requires s.Object?
    ensures CheckRequired(s, fields) && CheckAdditional(s, fields) <==> ObjectAssertions(s.fields, fields)
  {
    if ArrayAt(s, "required").Some? {
      var required := s.fields["required"].items;
      assert forall i :: 0 <= i < |required| && required[i].Text? ==> Text(required[i].s) in required;
    }
  }

  lemma {:induction false} AssertionsMean(c: Context, s: Json, d: Json)
    requires s.Object?
    ensures ChecksAssertions(c, s, d) <==> Assertions(c, s.fields, d)
  {
    EnumMeans(s, d);
    if d.Array? { SizeMeans(s, d.items); }
    if d.Object? { ObjectMeans(s, d.fields); }
  }

  // ---- References that resolve and do not go round ----

  // Every reference in `s`, in a place where the checker looks for a schema, names a
  // definition of rank below `level`.
  ghost predicate RefsBelow(c: Context, rank: map<string, nat>, level: nat, s: Json)
    requires WellFormed(s)
    decreases s
  {
    if HasRef(s) then
      var r := Resolve(c, s);
      r.Definition? && r.name in rank && rank[r.name] < level
    else
      && (ObjectAt(s, "properties").Some? ==>
            forall k :: k in s.fields["properties"].fields ==>
                RefsBelow(c, rank, level, s.fields["properties"].fields[k]))
      && (ObjectAt(s, "items").Some? ==> RefsBelow(c, rank, level, s.fields["items"]))
      && (ArrayAt(s, "allOf").Some? ==>
            forall i :: 0 <= i < |s.fields["allOf"].items| ==> RefsBelow(c, rank, level, s.fields["allOf"].items[i]))
      && (ArrayAt(s, "anyOf").Some? ==>
            forall i :: 0 <= i < |s.fields["anyOf"].items| ==> RefsBelow(c, rank, level, s.fields["anyOf"].items[i]))
      && (ArrayAt(s, "oneOf").Some? ==>
            forall i :: 0 <= i < |s.fields["oneOf"].items| ==> RefsBelow(c, rank, level, s.fields["oneOf"].items[i]))
      && (ObjectAt(s, "not").Some? ==> RefsBelow(c, rank, level, s.fields["not"]))
  }

  // No definition refers to itself through others: `rank` falls along every reference.
  ghost predicate Acyclic(c: Context, rank: map<string, nat>)
  {
    && WellFormedDefs(c.defs)
    && forall name :: name in c.defs ==> name in rank && RefsBelow(c, rank, rank[name], c.defs[name])
  }

  // ---- The meaning ----

  // Exactly one index below n satisfies `p`.
  ghost predicate OneBelow(p: nat -> bool, n: nat)
  {
    exists i: nat :: i < n && p(i) && forall j: nat :: j < n && j != i ==> !p(j)
  }

  // A reference means its definition and ignores what stands beside it (JSON Schema Core
  // draft-07, section 8.3). There is no set of active references here.
  ghost predicate Satisfies(c: Context, rank: map<string, nat>, level: nat, s: Json, d: Json)
    requires Acyclic(c, rank) && WellFormed(s) && RefsBelow(c, rank, level, s)
    decreases level, s, 1
  {
    if HasRef(s) then
      var name := Resolve(c, s).name;
      Satisfies(c, rank, rank[name], c.defs[name], d)
    else
      && Assertions(c, s.fields, d)
      && SatisfiesItems(c, rank, level, s, d)
      && SatisfiesProperties(c, rank, level, s, d)
      && SatisfiesAll(c, rank, level, s, d)
      && SatisfiesAny(c, rank, level, s, d)
      && SatisfiesOne(c, rank, level, s, d)
      && ("not" in s.fields && s.fields["not"].Object? ==> !Satisfies(c, rank, level, s.fields["not"], d))   // 6.7.4
  }

  // 6.4.1 items, with a single schema.
  ghost predicate SatisfiesItems(c: Context, rank: map<string, nat>, level: nat, s: Json, d: Json)
    requires Acyclic(c, rank) && WellFormed(s) && RefsBelow(c, rank, level, s) && !HasRef(s)
    decreases level, s, 0
  {
    "items" in s.fields && s.fields["items"].Object? && d.Array? ==>
      forall i :: 0 <= i < |d.items| ==> Satisfies(c, rank, level, s.fields["items"], d.items[i])
  }

  // 6.5.4 properties.
  ghost predicate SatisfiesProperties(c: Context, rank: map<string, nat>, level: nat, s: Json, d: Json)
    requires Acyclic(c, rank) && WellFormed(s) && RefsBelow(c, rank, level, s) && !HasRef(s)
    decreases level, s, 0
  {
    "properties" in s.fields && s.fields["properties"].Object? && d.Object? ==>
      forall k :: k in s.fields["properties"].fields && k in d.fields ==>
        Satisfies(c, rank, level, s.fields["properties"].fields[k], d.fields[k])
  }

  // 6.7.1 allOf.
  ghost predicate SatisfiesAll(c: Context, rank: map<string, nat>, level: nat, s: Json, d: Json)
    requires Acyclic(c, rank) && WellFormed(s) && RefsBelow(c, rank, level, s) && !HasRef(s)
    decreases level, s, 0
  {
    "allOf" in s.fields && s.fields["allOf"].Array? ==>
      forall i :: 0 <= i < |s.fields["allOf"].items| ==> Satisfies(c, rank, level, s.fields["allOf"].items[i], d)
  }

  // 6.7.2 anyOf.
  ghost predicate SatisfiesAny(c: Context, rank: map<string, nat>, level: nat, s: Json, d: Json)
    requires Acyclic(c, rank) && WellFormed(s) && RefsBelow(c, rank, level, s) && !HasRef(s)
    decreases level, s, 0
  {
    "anyOf" in s.fields && s.fields["anyOf"].Array? ==>
      exists i :: 0 <= i < |s.fields["anyOf"].items| && Satisfies(c, rank, level, s.fields["anyOf"].items[i], d)
  }

  // 6.7.3 oneOf: one branch and no other.
  ghost predicate SatisfiesOne(c: Context, rank: map<string, nat>, level: nat, s: Json, d: Json)
    requires Acyclic(c, rank) && WellFormed(s) && RefsBelow(c, rank, level, s) && !HasRef(s)
    decreases level, s, 0
  {
    "oneOf" in s.fields && s.fields["oneOf"].Array? ==>
      var branches := s.fields["oneOf"].items;
      OneBelow((i: nat) => i < |branches| && Satisfies(c, rank, level, branches[i], d), |branches|)
  }

  // ---- The verdict is the meaning ----

  function CountBelow(p: nat -> bool, n: nat): nat
  {
    if n == 0 then 0 else CountBelow(p, n - 1) + if p(n - 1) then 1 else 0
  }

  lemma {:induction false} CountIsZero(p: nat -> bool, n: nat)
    ensures CountBelow(p, n) == 0 <==> forall i: nat :: i < n ==> !p(i)
  {
    if n > 0 { CountIsZero(p, n - 1); }
  }

  lemma {:induction false} CountIsOne(p: nat -> bool, n: nat)
    ensures CountBelow(p, n) == 1 <==> OneBelow(p, n)
  {
    if n > 0 {
      var m: nat := n - 1;
      CountIsOne(p, m);
      CountIsZero(p, m);
      if p(m) {
        if CountBelow(p, m) == 0 { assert forall j: nat :: j < n && j != m ==> !p(j); }
      } else if OneBelow(p, m) {
        var i: nat :| i < m && p(i) && forall j: nat :: j < m && j != i ==> !p(j);
        assert forall j: nat :: j < n && j != i ==> !p(j);
      }
    }
  }

  lemma {:induction false} MatchesCounts(c: Context, active: set<string>, s: Json, d: Json, p: nat -> bool, n: nat)
    requires WellFormedDefs(c.defs) && WellFormed(s)
    requires ArrayAt(s, "oneOf").Some? && n <= |s.fields["oneOf"].items|
    requires forall i: nat :: i < n ==> p(i) == Accepts(c, active, s.fields["oneOf"].items[i], d)
    ensures Matches(c, active, s, d, n) == CountBelow(p, n)
    decreases n
  {
    hide Accepts;
    if n > 0 { MatchesCounts(c, active, s, d, p, n - 1); }
  }

  // The definitions the checker is inside of lie at or above `level`, so that no
  // reference below `level` is cut short.
  ghost predicate Above(rank: map<string, nat>, level: nat, active: set<string>)
  {
    forall name :: name in active ==> name in rank && level <= rank[name]
  }

  // When definitions do not refer to each other in a cycle and every reference resolves,
  // the verdict is the meaning of the keywords.
  lemma {:induction false} VerdictIsMeaning(
    c: Context, rank: map<string, nat>, level: nat, active: set<string>, s: Json, d: Json)
    requires Acyclic(c, rank) && WellFormed(s) && RefsBelow(c, rank, level, s)
    requires Above(rank, level, active)
    ensures Accepts(c, active, s, d) <==> Satisfies(c, rank, level, s, d)
    decreases level, s, 1
  {
    if HasRef(s) {
      var name := Resolve(c, s).name;
      VerdictIsMeaning(c, rank, rank[name], active + {name}, c.defs[name], d);
    } else {
      AssertionsMean(c, s, d);
      VerdictOfArray(c, rank, level, active, s, d);
      VerdictOfObject(c, rank, level, active, s, d);
      VerdictOfAll(c, rank, level, active, s, d);
      VerdictOfAny(c, rank, level, active, s, d);
      VerdictOfOne(c, rank, level, active, s, d);
      if ObjectAt(s, "not").Some? { VerdictIsMeaning(c, rank, level, active, s.fields["not"], d); }
      Conjoin(c, rank, level, active, s, d);
    }
  }

  lemma {:induction false} Conjoin(
    c: Context, rank: map<string, nat>, level: nat, active: set<string>, s: Json, d: Json)
    requires Acyclic(c, rank) && WellFormed(s) && RefsBelow(c, rank, level, s) && !HasRef(s)
    requires ChecksAssertions(c, s, d) <==> Assertions(c, s.fields, d)
    requires AcceptsArray(c, active, s, d) <==>
               (d.Array? ==> CheckSize(s, d.items)) && SatisfiesItems(c, rank, level, s, d)
    requires AcceptsObject(c, active, s, d) <==>
               (d.Object? ==> CheckRequired(s, d.fields) && CheckAdditional(s, d.fields))
                   && SatisfiesProperties(c, rank, level, s, d)
    requires AcceptsAll(c, active, s, d) <==> SatisfiesAll(c, rank, level, s, d)
    requires AcceptsAny(c, active, s, d) <==> SatisfiesAny(c, rank, level, s, d)
    requires AcceptsOne(c, active, s, d) <==> SatisfiesOne(c, rank, level, s, d)
    requires ObjectAt(s, "not").Some? ==> (Accepts(c, active, s.fields["not"], d) <==>
        Satisfies(c, rank, level, s.fields["not"], d))
    ensures Accepts(c, active, s, d) <==> Satisfies(c, rank, level, s, d)
  {
    hide Assertions, CheckType, CheckEnum, CheckText, CheckNumber, CheckSize, CheckRequired, CheckAdditional;
    hide AcceptsArray, AcceptsObject, AcceptsAll, AcceptsAny, AcceptsOne, RefsBelow;
    hide SatisfiesItems, SatisfiesProperties, SatisfiesAll, SatisfiesAny, SatisfiesOne;
  }

  lemma {:induction false} VerdictOfArray(
    c: Context, rank: map<string, nat>, level: nat, active: set<string>, s: Json, d: Json)
    requires WellFormedDefs(c.defs) && Acyclic(c, rank) && Above(rank, level, active)
    requires WellFormed(s) && RefsBelow(c, rank, level, s) && !HasRef(s)
    ensures AcceptsArray(c, active, s, d) <==>
               (d.Array? ==> CheckSize(s, d.items)) && SatisfiesItems(c, rank, level, s, d)
    decreases level, s, 0
  {
    hide Accepts, Satisfies, CheckSize, Acyclic, WellFormedDefs, Above;
    if ObjectAt(s, "items").Some? && d.Array? {
      forall i | 0 <= i < |d.items|
        ensures Accepts(c, active, s.fields["items"], d.items[i]) <==>
            Satisfies(c, rank, level, s.fields["items"], d.items[i])
      {
        VerdictIsMeaning(c, rank, level, active, s.fields["items"], d.items[i]);
      }
    }
  }

  lemma {:induction false} VerdictOfObject(
    c: Context, rank: map<string, nat>, level: nat, active: set<string>, s: Json, d: Json)
    requires WellFormedDefs(c.defs) && Acyclic(c, rank) && Above(rank, level, active)
    requires WellFormed(s) && RefsBelow(c, rank, level, s) && !HasRef(s)
    ensures AcceptsObject(c, active, s, d) <==>
              (d.Object? ==> CheckRequired(s, d.fields) && CheckAdditional(s, d.fields))
                  && SatisfiesProperties(c, rank, level, s, d)
    decreases level, s, 0
  {
    hide Accepts, Satisfies, CheckRequired, CheckAdditional, Acyclic, WellFormedDefs, Above;
    if ObjectAt(s, "properties").Some? && d.Object? {
      forall k | k in s.fields["properties"].fields && k in d.fields
        ensures Accepts(c, active, s.fields["properties"].fields[k], d.fields[k]) <==>
                Satisfies(c, rank, level, s.fields["properties"].fields[k], d.fields[k])
      {
        VerdictIsMeaning(c, rank, level, active, s.fields["properties"].fields[k], d.fields[k]);
      }
    }
  }

  lemma {:induction false} VerdictOfAll(
    c: Context, rank: map<string, nat>, level: nat, active: set<string>, s: Json, d: Json)
    requires WellFormedDefs(c.defs) && Acyclic(c, rank) && Above(rank, level, active)
    requires WellFormed(s) && RefsBelow(c, rank, level, s) && !HasRef(s)
    ensures AcceptsAll(c, active, s, d) <==> SatisfiesAll(c, rank, level, s, d)
    decreases level, s, 0
  {
    hide Accepts, Satisfies, Acyclic, WellFormedDefs, Above;
    if ArrayAt(s, "allOf").Some? {
      forall i | 0 <= i < |s.fields["allOf"].items|
        ensures Accepts(c, active, s.fields["allOf"].items[i], d) <==>
            Satisfies(c, rank, level, s.fields["allOf"].items[i], d)
      {
        VerdictIsMeaning(c, rank, level, active, s.fields["allOf"].items[i], d);
      }
    }
  }

  lemma {:induction false} VerdictOfAny(
    c: Context, rank: map<string, nat>, level: nat, active: set<string>, s: Json, d: Json)
    requires WellFormedDefs(c.defs) && Acyclic(c, rank) && Above(rank, level, active)
    requires WellFormed(s) && RefsBelow(c, rank, level, s) && !HasRef(s)
    ensures AcceptsAny(c, active, s, d) <==> SatisfiesAny(c, rank, level, s, d)
    decreases level, s, 0
  {
    hide Accepts, Satisfies, Acyclic, WellFormedDefs, Above;
    if ArrayAt(s, "anyOf").Some? {
      forall i | 0 <= i < |s.fields["anyOf"].items|
        ensures Accepts(c, active, s.fields["anyOf"].items[i], d) <==>
            Satisfies(c, rank, level, s.fields["anyOf"].items[i], d)
      {
        VerdictIsMeaning(c, rank, level, active, s.fields["anyOf"].items[i], d);
      }
    }
  }

  lemma {:induction false} VerdictOfOne(
    c: Context, rank: map<string, nat>, level: nat, active: set<string>, s: Json, d: Json)
    requires WellFormedDefs(c.defs) && Acyclic(c, rank) && Above(rank, level, active)
    requires WellFormed(s) && RefsBelow(c, rank, level, s) && !HasRef(s)
    ensures AcceptsOne(c, active, s, d) <==> SatisfiesOne(c, rank, level, s, d)
    decreases level, s, 0
  {
    hide Accepts, Satisfies, Acyclic, WellFormedDefs, Above, Matches;
    if ArrayAt(s, "oneOf").Some? {
      var branches := s.fields["oneOf"].items;
      forall i | 0 <= i < |branches|
        ensures Accepts(c, active, branches[i], d) <==> Satisfies(c, rank, level, branches[i], d)
      {
        VerdictIsMeaning(c, rank, level, active, branches[i], d);
      }
      var p := (i: nat) => i < |branches| && Satisfies(c, rank, level, branches[i], d);
      MatchesCounts(c, active, s, d, p, |branches|);
      CountIsOne(p, |branches|);
      SameOneBelow(p, (i: nat) => i < |branches| && Satisfies(c, rank, level, branches[i], d), |branches|);
    }
  }

  lemma {:induction false} SameOneBelow(p: nat -> bool, q: nat -> bool, n: nat)
    requires forall i: nat :: i < n ==> p(i) == q(i)
    ensures OneBelow(p, n) == OneBelow(q, n)
  {
  }

  // ---- References that do not resolve, and those that are none ----

  // The name a local reference is to: what follows `#/$defs/`.
  ghost predicate RefersTo(reference: Json, name: string) { reference == Text("#/$defs/" + name) }

  // A reference to a definition asks for that definition, unless it is being checked already;
  // any other text is refused; a `$ref` of null is as if it were not there, and one of another
  // kind accepts every document.
  lemma {:induction false} ReferenceVerdict(c: Context, active: set<string>, s: Json, d: Json)
    requires s.Object? && "$ref" in s.fields
    ensures var reference := s.fields["$ref"];
            && (forall name | RefersTo(reference, name) && name in c.defs ::
                  Accepts(c, active, s, d) <==> name in active || Accepts(c, active + {name}, c.defs[name], d))
            && (reference.Text? && (forall name :: RefersTo(reference, name) ==> name !in c.defs) ==>
                  !Accepts(c, active, s, d))
            && (!reference.Text? && !reference.Null? ==> Accepts(c, active, s, d))
            && (reference.Null? ==> !HasRef(s))
  {
    hide CheckScalars;
    forall name | RefersTo(s.fields["$ref"], name)
      ensures Resolve(c, s) == if name in c.defs then Definition(name) else Unresolved
    {
      assert ("#/$defs/" + name)[|DefsPrefix|..] == name && DefsPrefix <= "#/$defs/" + name;
    }
    if s.fields["$ref"].Text? && Resolve(c, s).Definition? {
      var name := Resolve(c, s).name;
      assert s.fields["$ref"].s == DefsPrefix + name;
      assert RefersTo(s.fields["$ref"], name);
    }
  }

  // ---- Well-formed schemas are always answered ----

  // When every nested schema is an object the checker never panics, whatever the document and the
  // order in which its members come.
  lemma {:induction false} WellFormedNeverPanics(c: Context, active: set<string>, s: Json, d: Json)
    requires WellFormedDefs(c.defs) && WellFormed(s)
    ensures !MayPanic(c, active, s, d)
    decreases c.defs.Keys - active, s, 1
  {
    hide Accepts, CheckScalars;
    if HasRef(s) {
      var r := Resolve(c, s);
      if r.Definition? && r.name !in active { WellFormedNeverPanics(c, active + {r.name}, c.defs[r.name], d); }
    } else {
      PartsNeverPanic(c, active, s, d);
      if ObjectAt(s, "not").Some? { WellFormedNeverPanics(c, active, s.fields["not"], d); }
    }
  }

  lemma {:induction false} PartsNeverPanic(c: Context, active: set<string>, s: Json, d: Json)
    requires WellFormedDefs(c.defs) && WellFormed(s) && !HasRef(s)
    ensures !ArrayPanics(c, active, s, d) && !ObjectPanics(c, active, s, d)
    ensures !AllPanics(c, active, s, d) && !AnyPanics(c, active, s, d) && !OnePanics(c, active, s, d)
    decreases c.defs.Keys - active, s, 0
  {
    hide Accepts, MayPanic, WellFormedDefs;
    if ObjectAt(s, "items").Some? && d.Array? {
      forall i | 0 <= i < |d.items| ensures !MayPanic(c, active, s.fields["items"], d.items[i]) {
        WellFormedNeverPanics(c, active, s.fields["items"], d.items[i]);
      }
    }
    if d.Object? {
      forall k | k in d.fields && Known(s, k)
        ensures !MayPanic(c, active, s.fields["properties"].fields[k], d.fields[k])
      {
        WellFormedNeverPanics(c, active, s.fields["properties"].fields[k], d.fields[k]);
      }
    }
    BranchesNeverPanic(c, active, s, d, "allOf");
    BranchesNeverPanic(c, active, s, d, "anyOf");
    BranchesNeverPanic(c, active, s, d, "oneOf");
  }

  lemma {:induction false} BranchesNeverPanic(c: Context, active: set<string>, s: Json, d: Json, keyword: string)
    requires WellFormedDefs(c.defs) && WellFormed(s) && (keyword == "allOf" || keyword == "anyOf" || keyword == "oneOf")
    ensures ArrayAt(s, keyword).Some? ==>
              forall i :: 0 <= i < |s.fields[keyword].items| ==> !MayPanic(c, active, s.fields[keyword].items[i], d)
    decreases c.defs.Keys - active, s, 0, 0
  {
    hide Accepts, MayPanic, WellFormedDefs;
    if ArrayAt(s, keyword).Some? {
      forall i | 0 <= i < |s.fields[keyword].items| ensures !MayPanic(c, active, s.fields[keyword].items[i], d) {
        WellFormedNeverPanics(c, active, s.fields[keyword].items[i], d);
      }
    }
  }

  // ---- A cyclic reference loses its meaning ----

  const NodeSchema := Object(map[
    "type" := Text("object"),
    "properties" := Object(map["child" := ChildSchema])])

  const ChildSchema := Object(map["$ref" := Text("#/$defs/node")])

  lemma {:induction false} NodeIsWellFormed()
    ensures HasRef(ChildSchema) && WellFormed(ChildSchema) && WellFormed(NodeSchema) && !HasRef(NodeSchema)
  {
  }

  function NodeContext(regexp: Regexp): Context { Context(map["node" := NodeSchema], regexp) }

  lemma {:induction false} ChildIsNode(c: Context)
    requires "node" in c.defs
    ensures HasRef(ChildSchema) && Resolve(c, ChildSchema) == Definition("node")
  {
    assert ("#/$defs/node")[|DefsPrefix|..] == "node";
  }

  lemma {:induction false} NodeRefusesNumber(regexp: Regexp)
    ensures WellFormed(NodeSchema)
    ensures !Accepts(NodeContext(regexp), {"node"}, NodeSchema, Number(5.0))
  {
    NodeIsWellFormed();
    hide WellFormed;
    assert !CheckType(NodeSchema, Number(5.0));
  }

  lemma {:induction false} ActiveChildAccepts(regexp: Regexp, d: Json)
    ensures WellFormed(ChildSchema) && Accepts(NodeContext(regexp), {"node"}, ChildSchema, d)
  {
    NodeIsWellFormed();
    ChildIsNode(NodeContext(regexp));
    hide WellFormed;
  }

  // A schema whose only keywords are `type` and `properties`.
  lemma {:induction false} NodeKeywords()
    ensures NodeSchema.Object? && !HasRef(NodeSchema) && ObjectAt(NodeSchema, "properties").Some?
    ensures NodeSchema.fields["properties"].fields == map["child" := ChildSchema]
    ensures ObjectAt(NodeSchema, "items").None? && ObjectAt(NodeSchema, "not").None?
    ensures ArrayAt(NodeSchema, "allOf").None? && ArrayAt(NodeSchema, "anyOf").None?
    ensures ArrayAt(NodeSchema, "oneOf").None?
    ensures ArrayAt(NodeSchema, "required").None? && BoolAt(NodeSchema, "additionalProperties").None?
  {
  }

  lemma {:induction false} NodeScalars(c: Context, d: Json)
    requires d.Object?
    ensures CheckScalars(c, NodeSchema, d)
    ensures CheckRequired(NodeSchema, d.fields) && CheckAdditional(NodeSchema, d.fields)
  {
  }

  lemma {:induction false} NodeTakesAnyChild(regexp: Regexp, d: Json)
    requires d.Object?
    ensures Accepts(NodeContext(regexp), {"node"}, NodeSchema, d)
  {
    hide CheckScalars, CheckRequired, CheckAdditional;
    var c := NodeContext(regexp);
    NodeKeywords();
    NodeScalars(c, d);
    forall k | k in d.fields && Known(NodeSchema, k)
      ensures Accepts(c, {"node"}, NodeSchema.fields["properties"].fields[k], d.fields[k])
    {
      ActiveChildAccepts(regexp, d.fields[k]);
    }
  }

  lemma {:induction false} EnterNode(regexp: Regexp, d: Json)
    ensures WellFormed(ChildSchema) && WellFormed(NodeSchema)
    ensures Accepts(NodeContext(regexp), {}, ChildSchema, d) == Accepts(NodeContext(regexp), {"node"}, NodeSchema, d)
  {
    NodeIsWellFormed();
    ChildIsNode(NodeContext(regexp));
    hide WellFormed, Resolve, HasRef;
    assert {} + {"node"} == {"node"};
  }

  lemma {:induction false} NodeIsCyclic(regexp: Regexp, rank: map<string, nat>)
    ensures !Acyclic(NodeContext(regexp), rank)
  {
    var c := NodeContext(regexp);
    NodeIsWellFormed();
    ChildIsNode(c);
    hide WellFormed;
    assert NodeSchema.fields["properties"].fields["child"] == ChildSchema;
    assert forall level: nat :: RefsBelow(c, rank, level, NodeSchema) ==> RefsBelow(c, rank, level, ChildSchema);
  }

  // An object whose child must again be a node: the checker refuses 5 as a node but lets it
  // through as a node's child, because the definition is already active there.
  lemma {:induction false} CyclicReferenceIsCut(regexp: Regexp)
    ensures WellFormed(ChildSchema) && WellFormed(NodeSchema)
    ensures !Accepts(NodeContext(regexp), {}, ChildSchema, Number(5.0))
    ensures Accepts(NodeContext(regexp), {}, ChildSchema, Object(map["child" := Number(5.0)]))
    ensures forall rank :: !Acyclic(NodeContext(regexp), rank)
  {
    hide WellFormed, Accepts, Acyclic;
    EnterNode(regexp, Number(5.0));
    EnterNode(regexp, Object(map["child" := Number(5.0)]));
    NodeRefusesNumber(regexp);
    NodeTakesAnyChild(regexp, Object(map["child" := Number(5.0)]));
    forall rank ensures !Acyclic(NodeContext(regexp), rank) { NodeIsCyclic(regexp, rank); }
  }
}
