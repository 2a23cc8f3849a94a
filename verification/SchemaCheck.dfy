/** generator/schemacheck/schemacheck.go: the checker for a subset of JSON Schema draft-07.
    The verdict is whether `validate` returns nil; error texts are not modelled. */
module SchemaCheck {
  import opened Wrappers
  import opened Json

  // regexp: None when the pattern does not compile, else whether the text matches.
  type Regexp = (string, string) -> Option<bool>

  datatype Context = Context(defs: map<string, Json>, regexp: Regexp)

  // ---- Reading a schema ----

  function Keyword(s: Json, key: string): Option<Json>
  {
    if s.Object? && key in s.fields then Some(s.fields[key]) else None
  }

  function ObjectAt(s: Json, key: string): Option<map<string, Json>>
  {
    if s.Object? && key in s.fields && s.fields[key].Object? then Some(s.fields[key].fields) else None
  }

  function ArrayAt(s: Json, key: string): Option<seq<Json>>
  {
    if s.Object? && key in s.fields && s.fields[key].Array? then Some(s.fields[key].items) else None
  }

  function NumberAt(s: Json, key: string): Option<real>
  {
    if s.Object? && key in s.fields && s.fields[key].Number? then Some(s.fields[key].n) else None
  }

  function TextAt(s: Json, key: string): Option<string>
  {
    if s.Object? && key in s.fields && s.fields[key].Text? then Some(s.fields[key].s) else None
  }

  function BoolAt(s: Json, key: string): Option<bool>
  {
    if s.Object? && key in s.fields && s.fields[key].Bool? then Some(s.fields[key].b) else None
  }

  // A `$ref` other than null takes over the whole schema.
  predicate HasRef(s: Json)
  {
    s.Object? && "$ref" in s.fields && !s.fields["$ref"].Null?
  }

  const DefsPrefix := "#/$defs/"

  datatype Reference = NotText | Unresolved | Definition(name: string)

  function Resolve(c: Context, s: Json): (r: Reference)
    requires HasRef(s)
    ensures r.Definition? ==> r.name in c.defs
  {
    match s.fields["$ref"]
    case Text(reference) =>
      if DefsPrefix <= reference && reference[|DefsPrefix|..] in c.defs then Definition(reference[|DefsPrefix|..])
      else Unresolved
    case _ => NotText
  }

  // `$defs` entries that are not objects are skipped.
  function DefsOf(s: Json): (defs: map<string, Json>)
    ensures forall name :: name in defs <==>
              && s.Object? && "$defs" in s.fields && s.fields["$defs"].Object?
              && name in s.fields["$defs"].fields && s.fields["$defs"].fields[name].Object?
    ensures forall name :: name in defs ==> defs[name] == s.fields["$defs"].fields[name]
  {
    match ObjectAt(s, "$defs")
    case None => map[]
    case Some(raw) => map name | name in raw && raw[name].Object? :: raw[name]
  }

  // What the source's type assertions demand, all the way down: a schema is an object, and so
  // are the members of `properties` and the branches of the combinators.
  predicate WellFormed(s: Json)
    decreases s
  {
    && s.Object?
    && (ObjectAt(s, "properties").Some? ==>
          forall k :: k in s.fields["properties"].fields ==> WellFormed(s.fields["properties"].fields[k]))
    && (ObjectAt(s, "items").Some? ==> WellFormed(s.fields["items"]))
    && (ArrayAt(s, "allOf").Some? ==>
          forall i :: 0 <= i < |s.fields["allOf"].items| ==> WellFormed(s.fields["allOf"].items[i]))
    && (ArrayAt(s, "anyOf").Some? ==>
          forall i :: 0 <= i < |s.fields["anyOf"].items| ==> WellFormed(s.fields["anyOf"].items[i]))
    && (ArrayAt(s, "oneOf").Some? ==>
          forall i :: 0 <= i < |s.fields["oneOf"].items| ==> WellFormed(s.fields["oneOf"].items[i]))
    && (ObjectAt(s, "not").Some? ==> WellFormed(s.fields["not"]))
  }

  predicate WellFormedDefs(defs: map<string, Json>)
  {
    forall name :: name in defs ==> WellFormed(defs[name])
  }

  // ---- Constraints without subschemas ----

  // jsonEqual.
  predicate JsonEqual(left: Json, right: Json)
    decreases left
  {
    match left
    case Object(l) =>
      right.Object? && |l| == |right.fields|
      && forall k :: k in l ==> k in right.fields && JsonEqual(l[k], right.fields[k])
    case Array(l) =>
      right.Array? && |l| == |right.items|
      && forall i :: 0 <= i < |l| ==> JsonEqual(l[i], right.items[i])
    case Number(n) => right.Number? && n == right.n
    case Text(s) => right.Text? && s == right.s
    case Bool(b) => right.Bool? && b == right.b
    case Null => right.Null?
  }

  // An unknown type name constrains nothing.
  predicate TypeHolds(name: string, d: Json)
  {
    if name == "string" then d.Text?
    else if name == "boolean" then d.Bool?
    else if name == "number" then d.Number?
    else if name == "integer" then d.Number? && d.n.Floor as real == d.n
    else if name == "array" then d.Array?
    else if name == "object" then d.Object?
    else if name == "null" then d.Null?
    else true
  }

  predicate CheckType(s: Json, d: Json)
  {
    TextAt(s, "type").Some? ==> TypeHolds(s.fields["type"].s, d)
  }

  predicate CheckEnum(s: Json, d: Json)
  {
    && (ArrayAt(s, "enum").Some? ==>
          exists i :: 0 <= i < |s.fields["enum"].items| && JsonEqual(s.fields["enum"].items[i], d))
    && (Keyword(s, "const").Some? ==> JsonEqual(s.fields["const"], d))
  }

  // A pattern that does not compile fails every text.
  predicate CheckText(c: Context, s: Json, d: Json)
  {
    d.Text? ==>
      && (NumberAt(s, "minLength").Some? ==> s.fields["minLength"].n <= |d.s| as real)
      && (TextAt(s, "pattern").Some? ==> c.regexp(s.fields["pattern"].s, d.s) == Some(true))
  }

  predicate CheckNumber(s: Json, d: Json)
  {
    d.Number? ==>
      && (NumberAt(s, "minimum").Some? ==> s.fields["minimum"].n <= d.n)
      && (NumberAt(s, "maximum").Some? ==> d.n <= s.fields["maximum"].n)
      && (NumberAt(s, "exclusiveMinimum").Some? ==> s.fields["exclusiveMinimum"].n < d.n)
      && (NumberAt(s, "exclusiveMaximum").Some? ==> d.n < s.fields["exclusiveMaximum"].n)
  }

  predicate Distinct(items: seq<Json>)
  {
    forall i, j :: 0 <= i < j < |items| ==> !JsonEqual(items[i], items[j])
  }

  predicate CheckSize(s: Json, items: seq<Json>)
  {
    && (NumberAt(s, "minItems").Some? ==> s.fields["minItems"].n <= |items| as real)
    && (BoolAt(s, "uniqueItems") == Some(true) ==> Distinct(items))
  }

  predicate CheckRequired(s: Json, fields: map<string, Json>)
  {
    ArrayAt(s, "required").Some? ==>
      forall i :: 0 <= i < |s.fields["required"].items| && s.fields["required"].items[i].Text? ==>
        s.fields["required"].items[i].s in fields
  }

  predicate Known(s: Json, key: string)
  {
    ObjectAt(s, "properties").Some? && key in s.fields["properties"].fields
  }

  predicate CheckAdditional(s: Json, fields: map<string, Json>)
  {
    BoolAt(s, "additionalProperties") == Some(false) ==> forall k :: k in fields ==> Known(s, k)
  }

  predicate CheckScalars(c: Context, s: Json, d: Json)
  {
    CheckType(s, d) && CheckEnum(s, d) && CheckText(c, s, d) && CheckNumber(s, d)
  }

  // ---- The verdict ----

  // What the checker answers with the definitions in `active` already entered: a reference
  // to one of those is accepted as it stands. Every reference entered leaves fewer
  // definitions, and everything else goes to a part of the schema: that bounds the recursion
  // on every schema, cyclic references included. (A schema that is not an object has no answer;
  // see MayPanic.)
  predicate Accepts(c: Context, active: set<string>, s: Json, d: Json)
    decreases c.defs.Keys - active, s, 1
  {
    if !s.Object? then false
    else if HasRef(s) then
      match Resolve(c, s)
      case NotText => true
      case Unresolved => false
      case Definition(name) => name in active || Accepts(c, active + {name}, c.defs[name], d)
    else
      && CheckScalars(c, s, d)
      && AcceptsArray(c, active, s, d)
      && AcceptsObject(c, active, s, d)
      && AcceptsAll(c, active, s, d)
      && AcceptsAny(c, active, s, d)
      && AcceptsOne(c, active, s, d)
      && (ObjectAt(s, "not").Some? ==> !Accepts(c, active, s.fields["not"], d))
  }

  predicate AcceptsArray(c: Context, active: set<string>, s: Json, d: Json)
    decreases c.defs.Keys - active, s, 0
  {
    d.Array? ==>
      && CheckSize(s, d.items)
      && (ObjectAt(s, "items").Some? ==>
            forall i :: 0 <= i < |d.items| ==> Accepts(c, active, s.fields["items"], d.items[i]))
  }

  predicate AcceptsObject(c: Context, active: set<string>, s: Json, d: Json)
    decreases c.defs.Keys - active, s, 0
  {
    d.Object? ==>
      && CheckRequired(s, d.fields)
      && CheckAdditional(s, d.fields)
      && forall k :: k in d.fields && Known(s, k) ==> Accepts(c, active, s.fields["properties"].fields[k], d.fields[k])
  }

  predicate AcceptsAll(c: Context, active: set<string>, s: Json, d: Json)
    decreases c.defs.Keys - active, s, 0
  {
    ArrayAt(s, "allOf").Some? ==>
      forall i :: 0 <= i < |s.fields["allOf"].items| ==> Accepts(c, active, s.fields["allOf"].items[i], d)
  }

  predicate AcceptsAny(c: Context, active: set<string>, s: Json, d: Json)
    decreases c.defs.Keys - active, s, 0
  {
    ArrayAt(s, "anyOf").Some? ==>
      exists i :: 0 <= i < |s.fields["anyOf"].items| && Accepts(c, active, s.fields["anyOf"].items[i], d)
  }

  predicate AcceptsOne(c: Context, active: set<string>, s: Json, d: Json)
    decreases c.defs.Keys - active, s, 0
  {
    ArrayAt(s, "oneOf").Some? ==> Matches(c, active, s, d, |s.fields["oneOf"].items|) == 1
  }

  // How many of the first n oneOf branches accept.
  function Matches(c: Context, active: set<string>, s: Json, d: Json, n: nat): nat
    requires ArrayAt(s, "oneOf").Some? && n <= |s.fields["oneOf"].items|
    decreases c.defs.Keys - active, s, 0, n
  {
    if n == 0 then 0
    else
      var before := Matches(c, active, s, d, n - 1);
      if Accepts(c, active, s.fields["oneOf"].items[n - 1], d) then before + 1 else before
  }

  // ---- Schemas that are not objects ----

  // The source asserts that nested schemas are objects only where it reaches them. Whether it may
  // come to one that is not: earlier checks and branches must have let it through, and the members
  // of a document come in any order.
  predicate MayPanic(c: Context, active: set<string>, s: Json, d: Json)
    decreases c.defs.Keys - active, s, 1
  {
    if !s.Object? then true
    else if HasRef(s) then
      var r := Resolve(c, s);
      r.Definition? && r.name !in active && MayPanic(c, active + {r.name}, c.defs[r.name], d)
    else
      && CheckScalars(c, s, d)
      && (ArrayPanics(c, active, s, d) || (AcceptsArray(c, active, s, d)
      && (ObjectPanics(c, active, s, d) || (AcceptsObject(c, active, s, d)
      && (AllPanics(c, active, s, d) || (AcceptsAll(c, active, s, d)
      && (AnyPanics(c, active, s, d) || (AcceptsAny(c, active, s, d)
      && (OnePanics(c, active, s, d) || (AcceptsOne(c, active, s, d)
      && ObjectAt(s, "not").Some? && MayPanic(c, active, s.fields["not"], d)))))))))))
  }

  predicate ArrayPanics(c: Context, active: set<string>, s: Json, d: Json)
    decreases c.defs.Keys - active, s, 0
  {
    && d.Array? && CheckSize(s, d.items) && ObjectAt(s, "items").Some?
    && exists i :: 0 <= i < |d.items|
         && (forall j :: 0 <= j < i ==> Accepts(c, active, s.fields["items"], d.items[j]))
         && MayPanic(c, active, s.fields["items"], d.items[i])
  }

  predicate ObjectPanics(c: Context, active: set<string>, s: Json, d: Json)
    decreases c.defs.Keys - active, s, 0
  {
    && d.Object? && CheckRequired(s, d.fields)
    && exists k :: k in d.fields && Known(s, k) && MayPanic(c, active, s.fields["properties"].fields[k], d.fields[k])
  }

  predicate AllPanics(c: Context, active: set<string>, s: Json, d: Json)
    decreases c.defs.Keys - active, s, 0
  {
    && ArrayAt(s, "allOf").Some?
    && exists i :: 0 <= i < |s.fields["allOf"].items|
         && (forall j :: 0 <= j < i ==> Accepts(c, active, s.fields["allOf"].items[j], d))
         && MayPanic(c, active, s.fields["allOf"].items[i], d)
  }

  predicate AnyPanics(c: Context, active: set<string>, s: Json, d: Json)
    decreases c.defs.Keys - active, s, 0
  {
    && ArrayAt(s, "anyOf").Some?
    && exists i :: 0 <= i < |s.fields["anyOf"].items|
         && (forall j :: 0 <= j < i ==> !Accepts(c, active, s.fields["anyOf"].items[j], d))
         && MayPanic(c, active, s.fields["anyOf"].items[i], d)
  }

  predicate OnePanics(c: Context, active: set<string>, s: Json, d: Json)
    decreases c.defs.Keys - active, s, 0
  {
    && ArrayAt(s, "oneOf").Some?
    && exists i :: 0 <= i < |s.fields["oneOf"].items| && MayPanic(c, active, s.fields["oneOf"].items[i], d)
  }
}
