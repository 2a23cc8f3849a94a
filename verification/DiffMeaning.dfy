/** What the semantic difference reports: every place where the documents part, what each of them
    holds there, and the panel it belongs to. */
module DiffMeaning {
  import opened Wrappers
  import opened Decimals
  import opened Json
  import opened DocumentDiff

  // ---- Places ----

  datatype Place = Key(name: string) | Index(i: nat)

  function Child(v: Option<Json>, p: Place): Option<Json>
  {
    match (v, p)
    case (Some(Object(fields)), Key(k)) => At(fields, k)
    case (Some(Array(items)), Index(i)) => ItemAt(items, i)
    case _ => None
  }

  // What is found along the places, if anything.
  function Sub(v: Option<Json>, places: seq<Place>): Option<Json>
    decreases |places|
  {
    if places == [] then v else Sub(Child(v, places[0]), places[1..])
  }

  // Two objects, or two arrays: the walk goes on inside them.
  predicate SameKind(x: Option<Json>, y: Option<Json>)
  {
    x.Some? && y.Some? && ((x.value.Object? && y.value.Object?) || (x.value.Array? && y.value.Array?))
  }

  // The documents go together down to here and part here.
  ghost predicate PartAt(e: Option<Json>, a: Option<Json>, places: seq<Place>)
  {
    && (forall n :: 0 <= n < |places| ==> SameKind(Sub(e, places[..n]), Sub(a, places[..n])))
    && Sub(e, places) != Sub(a, places) && !SameKind(Sub(e, places), Sub(a, places))
  }

  function PathTo(path: string, p: Place): string
  {
    match p
    case Key(k) => path + "." + k
    case Index(i) => path + "[" + Decimal(i) + "]"
  }

  function PathAlong(path: string, places: seq<Place>): string
    decreases |places|
  {
    if places == [] then path else PathAlong(PathTo(path, places[0]), places[1..])
  }

  // The ID of the innermost panel of the expected document on the way, `outer` without one.
  function Owner(path: string, e: Option<Json>, places: seq<Place>, outer: int): int
    decreases |places|
  {
    if places == [] then outer
    else
      var id := match e case Some(Object(fields)) => PanelID(path, fields, outer) case _ => outer;
      Owner(PathTo(path, places[0]), Child(e, places[0]), places[1..], id)
  }

  function EntryAt(
    marshal: Json -> string, path: string, e: Option<Json>, a: Option<Json>, places: seq<Place>, outer: int): DiffEntry
  {
    DiffEntry(PathAlong(path, places), Owner(path, e, places, outer),
              ScalarText(marshal, Sub(e, places)), ScalarText(marshal, Sub(a, places)))
  }

  ghost predicate Reported(
    marshal: Json -> string, path: string, e: Option<Json>, a: Option<Json>, outer: int, d: DiffEntry)
  {
    exists places :: PartAt(e, a, places) && d == EntryAt(marshal, path, e, a, places, outer)
  }

  // ---- One place further ----

  lemma {:induction false} PartHere(e: Option<Json>, a: Option<Json>)
    ensures PartAt(e, a, []) <==> e != a && !SameKind(e, a)
  {
  }

  lemma {:induction false} PartBelow(e: Option<Json>, a: Option<Json>, places: seq<Place>)
    requires places != []
    ensures PartAt(e, a, places) <==>
              SameKind(e, a) && PartAt(Child(e, places[0]), Child(a, places[0]), places[1..])
  {
    hide SameKind, Child;
    var x, y, rest := Child(e, places[0]), Child(a, places[0]), places[1..];
    forall n | 0 <= n < |places|
      ensures n == 0 ==> Sub(e, places[..n]) == e && Sub(a, places[..n]) == a
      ensures n > 0 ==> Sub(e, places[..n]) == Sub(x, rest[..n - 1]) && Sub(a, places[..n]) == Sub(y, rest[..n - 1])
    {
      if n > 0 { assert places[..n][0] == places[0] && places[..n][1..] == rest[..n - 1]; }
    }
    if PartAt(e, a, places) {
      forall n | 0 <= n < |rest| ensures SameKind(Sub(x, rest[..n]), Sub(y, rest[..n])) {
        assert SameKind(Sub(e, places[..n + 1]), Sub(a, places[..n + 1]));
      }
      assert SameKind(Sub(e, places[..0]), Sub(a, places[..0]));
    }
    if SameKind(e, a) && PartAt(x, y, rest) {
      forall n | 0 <= n < |places| ensures SameKind(Sub(e, places[..n]), Sub(a, places[..n])) {
        if n > 0 { assert SameKind(Sub(x, rest[..n - 1]), Sub(y, rest[..n - 1])); }
      }
    }
  }

  function Inner(path: string, e: Json, outer: int): int
  {
    if e.Object? then PanelID(path, e.fields, outer) else outer
  }

  // What two containers of one kind report is what is reported below them.
  lemma {:induction false} ReportedBelow(
    marshal: Json -> string, path: string, e: Json, a: Json, outer: int, d: DiffEntry)
    requires SameKind(Some(e), Some(a))
    ensures Reported(marshal, path, Some(e), Some(a), outer, d) <==>
              exists p ::
                Reported(marshal, PathTo(path, p), Child(Some(e), p), Child(Some(a), p), Inner(path, e, outer), d)
  {
    hide SameKind, Child, PathTo, PartAt, PanelID;
    if Reported(marshal, path, Some(e), Some(a), outer, d) {
      var places :| PartAt(Some(e), Some(a), places) && d == EntryAt(marshal, path, Some(e), Some(a), places, outer);
      if places == [] {
        PartHere(Some(e), Some(a));
      } else {
        PartBelow(Some(e), Some(a), places);
        var p := places[0];
        assert Reported(marshal, PathTo(path, p), Child(Some(e), p), Child(Some(a), p), Inner(path, e, outer), d);
      }
    }
    if p :| Reported(marshal, PathTo(path, p), Child(Some(e), p), Child(Some(a), p), Inner(path, e, outer), d) {
      var rest :| PartAt(Child(Some(e), p), Child(Some(a), p), rest)
        && d == EntryAt(marshal, PathTo(path, p), Child(Some(e), p), Child(Some(a), p), rest, Inner(path, e, outer));
      var places := [p] + rest;
      assert places[0] == p && places[1..] == rest;
      PartBelow(Some(e), Some(a), places);
      assert d == EntryAt(marshal, path, Some(e), Some(a), places, outer);
    }
  }

  // Where nothing is, or things are of two kinds, the walk stops.
  lemma {:induction false} ReportedHere(
    marshal: Json -> string, path: string, e: Option<Json>, a: Option<Json>, outer: int, d: DiffEntry)
    requires !SameKind(e, a)
    ensures Reported(marshal, path, e, a, outer, d) <==>
              e != a && d == DiffEntry(path, outer, ScalarText(marshal, e), ScalarText(marshal, a))
  {
    hide SameKind, ScalarText;
    PartHere(e, a);
    assert EntryAt(marshal, path, e, a, [], outer) ==
           DiffEntry(path, outer, ScalarText(marshal, e), ScalarText(marshal, a));
    if Reported(marshal, path, e, a, outer, d) {
      var places :| PartAt(e, a, places) && d == EntryAt(marshal, path, e, a, places, outer);
      if places != [] { PartBelow(e, a, places); }
    }
  }

  // ---- The walk reports exactly these ----

  lemma {:induction false} InFields(
    marshal: Json -> string, path: string, e: Json, a: Json, id: int, keys: seq<string>, d: DiffEntry)
    requires e.Object? && a.Object?
    ensures d in FieldDifferences(marshal, path, e, a, id, keys) <==>
              exists k <- keys :: d in FieldDifference(marshal, path, e, a, id, k)
  {
    hide FieldDifference;
    if keys != [] {
      var rest, last := keys[..|keys| - 1], keys[|keys| - 1];
      InFields(marshal, path, e, a, id, rest, d);
      assert keys == rest + [last];
      if k :| k in rest && d in FieldDifference(marshal, path, e, a, id, k) { assert k in keys; }
      if k :| k in keys && d in FieldDifference(marshal, path, e, a, id, k) { assert k in rest || k == last; }
      assert last in keys;
    }
  }

  // The entry is reported at item `i`.
  ghost predicate InItem(marshal: Json -> string, path: string, e: Json, a: Json, id: int, i: nat, d: DiffEntry)
    requires e.Array? && a.Array?
  {
    d in ItemDifference(marshal, path, e, a, id, i)
  }

  lemma {:induction false} LastItem(
    marshal: Json -> string, path: string, e: Json, a: Json, id: int, count: nat, d: DiffEntry)
    requires e.Array? && a.Array? && count > 0
    ensures d in ItemDifferences(marshal, path, e, a, id, count) <==>
              d in ItemDifferences(marshal, path, e, a, id, count - 1) || InItem(marshal, path, e, a, id, count - 1, d)
  {
    hide ItemDifference;
  }

  lemma {:induction false} InItems(
    marshal: Json -> string, path: string, e: Json, a: Json, id: int, count: nat, d: DiffEntry)
    requires e.Array? && a.Array?
    ensures d in ItemDifferences(marshal, path, e, a, id, count) <==>
              exists i: nat :: i < count && InItem(marshal, path, e, a, id, i, d)
  {
    hide InItem;
    if count > 0 {
      hide ItemDifferences;
      InItems(marshal, path, e, a, id, count - 1, d);
      LastItem(marshal, path, e, a, id, count, d);
    }
  }

  lemma {:induction false} FieldReported(
    marshal: Json -> string, path: string, e: Json, a: Json, id: int, k: string, d: DiffEntry)
    requires e.Object? && a.Object?
    ensures d in FieldDifference(marshal, path, e, a, id, k) <==>
              Reported(marshal, PathTo(path, Key(k)), Child(Some(e), Key(k)), Child(Some(a), Key(k)), id, d)
    decreases e, 0, 0
  {
    hide Differences, Reported, ScalarText;
    var x, y := Child(Some(e), Key(k)), Child(Some(a), Key(k));
    if x.Some? && y.Some? {
      DifferenceIsReported(marshal, PathTo(path, Key(k)), e.fields[k], a.fields[k], id, d);
    } else {
      ReportedHere(marshal, PathTo(path, Key(k)), x, y, id, d);
    }
  }

  lemma {:induction false} ItemReported(
    marshal: Json -> string, path: string, e: Json, a: Json, id: int, i: nat, d: DiffEntry)
    requires e.Array? && a.Array? && (i < |e.items| || i < |a.items|)
    ensures InItem(marshal, path, e, a, id, i, d) <==>
              Reported(marshal, PathTo(path, Index(i)), Child(Some(e), Index(i)), Child(Some(a), Index(i)), id, d)
    decreases e, 0, 0
  {
    hide Differences, Reported, ScalarText, Decimal;
    var x, y := Child(Some(e), Index(i)), Child(Some(a), Index(i));
    if x.Some? && y.Some? {
      DifferenceIsReported(marshal, PathTo(path, Index(i)), e.items[i], a.items[i], id, d);
    } else {
      ReportedHere(marshal, PathTo(path, Index(i)), x, y, id, d);
    }
  }

  lemma {:induction false} DifferenceIsReported(
    marshal: Json -> string, path: string, e: Json, a: Json, outer: int, d: DiffEntry)
    ensures d in Differences(marshal, path, e, a, outer) <==> Reported(marshal, path, Some(e), Some(a), outer, d)
    decreases e, 1, 0
  {
    if e.Object? && a.Object? {
      ObjectReported(marshal, path, e, a, outer, d);
    } else if e.Array? && a.Array? {
      ArrayReported(marshal, path, e, a, outer, d);
    } else {
      hide Reported, ScalarText;
      ReportedHere(marshal, path, Some(e), Some(a), outer, d);
    }
  }

  lemma {:induction false} ObjectReported(
    marshal: Json -> string, path: string, e: Json, a: Json, outer: int, d: DiffEntry)
    requires e.Object? && a.Object?
    ensures d in Differences(marshal, path, e, a, outer) <==> Reported(marshal, path, Some(e), Some(a), outer, d)
    decreases e, 0, 1
  {
    hide Reported, FieldDifferences, FieldDifference, PathTo, PanelID;
    var id, keys := PanelID(path, e.fields, outer), SortedKeys(e.fields.Keys + a.fields.Keys);
    KeyMembers(e.fields.Keys + a.fields.Keys);
    InFields(marshal, path, e, a, id, keys, d);
    ReportedBelow(marshal, path, e, a, outer, d);
    forall k
      ensures d in FieldDifference(marshal, path, e, a, id, k) <==>
                Reported(marshal, PathTo(path, Key(k)), Child(Some(e), Key(k)), Child(Some(a), Key(k)), id, d)
      ensures k !in keys ==> d !in FieldDifference(marshal, path, e, a, id, k)
    {
      FieldReported(marshal, path, e, a, id, k, d);
      if k !in keys { NowhereReported(marshal, PathTo(path, Key(k)), id, d); }
    }
    forall p: Place | !p.Key?
      ensures !Reported(marshal, PathTo(path, p), Child(Some(e), p), Child(Some(a), p), Inner(path, e, outer), d)
    {
      NowhereReported(marshal, PathTo(path, p), Inner(path, e, outer), d);
    }
  }

  lemma {:induction false} NowhereReported(marshal: Json -> string, path: string, outer: int, d: DiffEntry)
    ensures !Reported(marshal, path, None, None, outer, d)
  {
    hide Reported;
    ReportedHere(marshal, path, None, None, outer, d);
  }

  lemma {:induction false} ArrayReported(
    marshal: Json -> string, path: string, e: Json, a: Json, outer: int, d: DiffEntry)
    requires e.Array? && a.Array?
    ensures d in Differences(marshal, path, e, a, outer) <==> Reported(marshal, path, Some(e), Some(a), outer, d)
    decreases e, 0, 1
  {
    hide Reported, ItemDifferences, InItem, PathTo;
    var count: nat := if |e.items| > |a.items| then |e.items| else |a.items|;
    assert Differences(marshal, path, e, a, outer) == ItemDifferences(marshal, path, e, a, outer, count);
    InItems(marshal, path, e, a, outer, count, d);
    ReportedBelow(marshal, path, e, a, outer, d);
    forall i: nat | i < count
      ensures InItem(marshal, path, e, a, outer, i, d) <==>
                Reported(marshal, PathTo(path, Index(i)), Child(Some(e), Index(i)), Child(Some(a), Index(i)), outer, d)
    {
      ItemReported(marshal, path, e, a, outer, i, d);
    }
    if p :| Reported(marshal, PathTo(path, p), Child(Some(e), p), Child(Some(a), p), Inner(path, e, outer), d) {
      if p.Index? && p.i < count {
        assert InItem(marshal, path, e, a, outer, p.i, d);
      } else {
        NowhereReported(marshal, PathTo(path, p), outer, d);
        assert false;
      }
    }
  }

  // The difference of two documents holds exactly one kind of entry: for a place where they part,
  // its path, its panel, and what the expected and the actual document hold there.
  lemma {:induction false} ReportsExactly(marshal: Json -> string, e: Json, a: Json, d: DiffEntry)
    ensures d in Differences(marshal, "$", e, a, 0) <==>
              exists places ::
                && PartAt(Some(e), Some(a), places)
                && d.path == PathAlong("$", places) && d.panelID == Owner("$", Some(e), places, 0)
                && d.expected == ScalarText(marshal, Sub(Some(e), places))
                && d.actual == ScalarText(marshal, Sub(Some(a), places))
  {
    hide PartAt, PathAlong, Owner, Sub, ScalarText, Differences;
    DifferenceIsReported(marshal, "$", e, a, 0, d);
  }
}
