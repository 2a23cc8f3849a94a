/** generator/schemacheck/schemacheck.go: the `validator` itself, which keeps the set of
    references it is inside of and walks documents in whatever order map iteration gives. */
module SchemaValidator {
  import opened Wrappers
  import opened Json
  import opened SchemaCheck

  class Validator {
    const c: Context
    var active: set<string>

    constructor (schema: Json, regexp: Regexp)
      ensures c == Context(DefsOf(schema), regexp) && active == {}
    {
      c := Context(DefsOf(schema), regexp);
      active := {};
    }

    method ValidateEnum(s: Json, d: Json) returns (ok: bool)
      requires s.Object?
      ensures ok == CheckEnum(s, d)
    {
      var values := ArrayAt(s, "enum");
      if values.Some? {
        var matched := false;
        for i := 0 to |values.value|
          invariant forall j :: 0 <= j < i ==> !JsonEqual(values.value[j], d)
        {
          if JsonEqual(values.value[i], d) {
            matched := true;
            break;
          }
        }
        if !matched { return false; }
      }
      if "const" in s.fields {
        if !JsonEqual(s.fields["const"], d) { return false; }
      }
      return true;
    }

    method ValidateText(s: Json, d: Json) returns (ok: bool)
      requires s.Object?
      ensures ok == CheckText(c, s, d)
    {
      if !d.Text? { return true; }
      var minimum := NumberAt(s, "minLength");
      if minimum.Some? && |d.s| as real < minimum.value { return false; }
      var pattern := TextAt(s, "pattern");
      if pattern.Some? {
        match c.regexp(pattern.value, d.s) {
          case None => return false;
          case Some(matched) => if !matched { return false; }
        }
      }
      return true;
    }

    method ValidateNumber(s: Json, d: Json) returns (ok: bool)
      requires s.Object?
      ensures ok == CheckNumber(s, d)
    {
      if !d.Number? { return true; }
      var bound := NumberAt(s, "minimum");
      if bound.Some? && d.n < bound.value { return false; }
      bound := NumberAt(s, "maximum");
      if bound.Some? && d.n > bound.value { return false; }
      bound := NumberAt(s, "exclusiveMinimum");
      if bound.Some? && d.n <= bound.value { return false; }
      bound := NumberAt(s, "exclusiveMaximum");
      if bound.Some? && d.n >= bound.value { return false; }
      return true;
    }

    method ItemsDistinct(items: seq<Json>) returns (ok: bool)
      ensures ok == Distinct(items)
    {
      for left := 0 to |items|
        invariant forall i, j :: 0 <= i < left && i < j < |items| ==> !JsonEqual(items[i], items[j])
      {
        for right := left + 1 to |items|
          invariant forall j :: left < j < right ==> !JsonEqual(items[left], items[j])
        {
          if JsonEqual(items[left], items[right]) { return false; }
        }
      }
      return true;
    }

    method RequiredPresent(s: Json, fields: map<string, Json>) returns (ok: bool)
      requires s.Object?
      ensures ok == CheckRequired(s, fields)
    {
      var required := ArrayAt(s, "required");
      if required.None? { return true; }
      for i := 0 to |required.value|
        invariant forall j :: 0 <= j < i && required.value[j].Text? ==> required.value[j].s in fields
      {
        if required.value[i].Text? && required.value[i].s !in fields { return false; }
      }
      return true;
    }

    // A verdict is right whatever the schema; there is none only where the source may panic.
    ghost predicate Answers(s: Json, d: Json, r: Option<bool>)
      reads this
    {
      if r.Some? then r.value == Accepts(c, active, s, d) else MayPanic(c, active, s, d)
    }

    method Validate(s: Json, d: Json) returns (r: Option<bool>)
      modifies this`active
      ensures active == old(active) && Answers(s, d, r)
      decreases c.defs.Keys - active, s, 1
    {
      if !s.Object? { return None; }
      if HasRef(s) {
        match Resolve(c, s) {
          case NotText => return Some(true);
          case Unresolved => return Some(false);
          case Definition(name) =>
            if name in active { return Some(true); }
            ghost var before := active;
            active := active + {name};
            r := Validate(c.defs[name], d);
            active := active - {name};
            assert active == before;
            return;
        }
      }
      if !CheckType(s, d) { return Some(false); }
      var ok := ValidateEnum(s, d);
      if !ok { return Some(false); }
      ok := ValidateText(s, d);
      if !ok { return Some(false); }
      ok := ValidateNumber(s, d);
      if !ok { return Some(false); }
      r := ValidateParts(s, d);
    }

    // The constraints with subschemas.
    method ValidateParts(s: Json, d: Json) returns (r: Option<bool>)
      requires s.Object? && !HasRef(s) && CheckScalars(c, s, d)
      modifies this`active
      ensures active == old(active) && Answers(s, d, r)
      decreases c.defs.Keys - active, s, 0, 1
    {
      hide CheckScalars, AcceptsArray, AcceptsObject, AcceptsAll, AcceptsAny, AcceptsOne;
      hide ArrayPanics, ObjectPanics, AllPanics, AnyPanics, OnePanics, HasRef;
      r := ValidateArray(s, d);
      if r != Some(true) { return; }
      r := ValidateObject(s, d);
      if r != Some(true) { return; }
      r := ValidateAll(s, d);
      if r != Some(true) { return; }
      r := ValidateAny(s, d);
      if r != Some(true) { return; }
      r := ValidateOne(s, d);
      if r != Some(true) { return; }
      if ObjectAt(s, "not").Some? {
        r := Validate(s.fields["not"], d);
        if r.Some? { r := Some(!r.value); }
      }
    }

    method ValidateArray(s: Json, d: Json) returns (r: Option<bool>)
      modifies this`active
      ensures active == old(active)
      ensures if r.Some? then r.value == AcceptsArray(c, active, s, d) else ArrayPanics(c, active, s, d)
      decreases c.defs.Keys - active, s, 0, 0
    {
      if !d.Array? { return Some(true); }
      var minimum := NumberAt(s, "minItems");
      if minimum.Some? && |d.items| as real < minimum.value { return Some(false); }
      if BoolAt(s, "uniqueItems") == Some(true) {
        var distinct := ItemsDistinct(d.items);
        if !distinct { return Some(false); }
      }
      if ObjectAt(s, "items").Some? {
        hide Accepts, MayPanic, Distinct;
        for i := 0 to |d.items|
          invariant active == old(active)
          invariant forall j :: 0 <= j < i ==> Accepts(c, active, s.fields["items"], d.items[j])
        {
          r := Validate(s.fields["items"], d.items[i]);
          if r != Some(true) { return; }
        }
      }
      return Some(true);
    }

    // Go visits the members of a map in an unspecified order: any member not yet seen may be next.
    method ValidateObject(s: Json, d: Json) returns (r: Option<bool>)
      requires s.Object?
      modifies this`active
      ensures active == old(active)
      ensures if r.Some? then r.value == AcceptsObject(c, active, s, d) else ObjectPanics(c, active, s, d)
      decreases c.defs.Keys - active, s, 0, 0
    {
      hide Accepts, MayPanic, CheckRequired;
      if !d.Object? { return Some(true); }
      var required := RequiredPresent(s, d.fields);
      if !required { return Some(false); }
      var closed := BoolAt(s, "additionalProperties") == Some(false);
      var rest := d.fields.Keys;
      while rest != {}
        invariant active == old(active)
        invariant rest <= d.fields.Keys
        invariant forall k :: k in d.fields && k !in rest && Known(s, k) ==>
                    Accepts(c, active, s.fields["properties"].fields[k], d.fields[k])
        invariant closed ==> forall k :: k in d.fields && k !in rest ==> Known(s, k)
        decreases rest
      {
        var key :| key in rest;
        rest := rest - {key};
        if Known(s, key) {
          r := Validate(s.fields["properties"].fields[key], d.fields[key]);
          if r != Some(true) { return; }
        } else if closed {
          return Some(false);
        }
      }
      return Some(true);
    }

    method ValidateAll(s: Json, d: Json) returns (r: Option<bool>)
      modifies this`active
      ensures active == old(active)
      ensures if r.Some? then r.value == AcceptsAll(c, active, s, d) else AllPanics(c, active, s, d)
      decreases c.defs.Keys - active, s, 0, 0
    {
      hide Accepts, MayPanic;
      if ArrayAt(s, "allOf").None? { return Some(true); }
      var branches := s.fields["allOf"].items;
      for i := 0 to |branches|
        invariant active == old(active)
        invariant forall j :: 0 <= j < i ==> Accepts(c, active, branches[j], d)
      {
        r := Validate(branches[i], d);
        if r != Some(true) { return; }
      }
      return Some(true);
    }

    method ValidateAny(s: Json, d: Json) returns (r: Option<bool>)
      modifies this`active
      ensures active == old(active)
      ensures if r.Some? then r.value == AcceptsAny(c, active, s, d) else AnyPanics(c, active, s, d)
      decreases c.defs.Keys - active, s, 0, 0
    {
      hide Accepts, MayPanic;
      if ArrayAt(s, "anyOf").None? { return Some(true); }
      var branches := s.fields["anyOf"].items;
      for i := 0 to |branches|
        invariant active == old(active)
        invariant forall j :: 0 <= j < i ==> !Accepts(c, active, branches[j], d)
      {
        r := Validate(branches[i], d);
        if r != Some(false) { return; }
      }
      return Some(false);
    }

    method ValidateOne(s: Json, d: Json) returns (r: Option<bool>)
      modifies this`active
      ensures active == old(active)
      ensures if r.Some? then r.value == AcceptsOne(c, active, s, d) else OnePanics(c, active, s, d)
      decreases c.defs.Keys - active, s, 0, 0
    {
      hide Accepts, MayPanic;
      if ArrayAt(s, "oneOf").None? { return Some(true); }
      var branches := s.fields["oneOf"].items;
      var matches := 0;
      for i := 0 to |branches|
        invariant active == old(active)
        invariant matches == Matches(c, active, s, d, i)
      {
        r := Validate(branches[i], d);
        if r.None? { return; }
        if r.value { matches := matches + 1; }
      }
      return Some(matches == 1);
    }
  }

  // The package's entry point on decoded values. A schema that is not an object does not decode
  // (and null decodes as the empty object).
  method Validate(schema: Json, document: Json, regexp: Regexp) returns (r: Option<bool>)
    requires schema.Object?
    ensures var c := Context(DefsOf(schema), regexp);
            if r.Some? then r.value == Accepts(c, {}, schema, document) else MayPanic(c, {}, schema, document)
  {
    var validator := new Validator(schema, regexp);
    r := validator.Validate(schema, document);
  }
}
