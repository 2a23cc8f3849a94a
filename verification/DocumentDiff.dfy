/** dashboard/pipeline/diff.go: the semantic difference of two decoded documents. */
module DocumentDiff {
  import opened Decimals
  import opened Wrappers
  import opened Ordering
  import opened Json

  const MaxEntries := 100

  datatype DiffEntry = DiffEntry(path: string, panelID: int, expected: string, actual: string)

  // `marshal` stands for json.Marshal on a decoded value.
  function ScalarText(marshal: Json -> string, value: Option<Json>): string
  {
    match value case None => "<absent>" case Some(v) => marshal(v)
  }

  function At(fields: map<string, Json>, key: string): Option<Json>
  {
    if key in fields then Some(fields[key]) else None
  }

  function ItemAt(items: seq<Json>, i: nat): Option<Json>
  {
    if i < |items| then Some(items[i]) else None
  }

  // ---- Which object owns a panel ID ----

  function TrailingDigits(s: string): (n: nat)
    ensures n <= |s|
  {
    if s == "" || !('0' <= s[|s| - 1] <= '9') then 0 else TrailingDigits(s[..|s| - 1]) + 1
  }

  // The path ends in `panels[<digits>]`.
  predicate PanelPath(path: string)
  {
    && path != "" && path[|path| - 1] == ']'
    && var body := path[..|path| - 1];
       var head := body[..|body| - TrailingDigits(body)];
       TrailingDigits(body) > 0 && |head| >= |"panels["| && head[|head| - |"panels["|..] == "panels["
  }

  // Go's conversion of a float to int drops the fraction.
  function Truncate(n: real): int
  {
    if n >= 0.0 then n.Floor else -(-n).Floor
  }

  function PanelID(path: string, fields: map<string, Json>, outer: int): int
  {
    if PanelPath(path) && "id" in fields && fields["id"].Number? then Truncate(fields["id"].n) else outer
  }

  // ---- Keys in order ----

  ghost function SortedKeys(keys: set<string>): (r: seq<string>)
    ensures multiset(r) == multiset(keys)
  {
    if keys == {} then []
    else
      var k :| k in keys;
      assert multiset(keys) == multiset(keys - {k}) + multiset{k};
      Insert(StringLeq, k, SortedKeys(keys - {k}))
  }

  lemma {:induction false} KeysSorted(keys: set<string>)
    ensures SortedBy(StringLeq, SortedKeys(keys))
  {
    StringOrder(multiset{});
    if keys != {} {
      var k :| k in keys && SortedKeys(keys) == Insert(StringLeq, k, SortedKeys(keys - {k}));
      KeysSorted(keys - {k});
      InsertSorted(StringLeq, k, SortedKeys(keys - {k}));
    }
  }

  lemma {:induction false} KeyMembers(keys: set<string>)
    ensures forall k :: k in SortedKeys(keys) <==> k in keys
  {
    forall k ensures k in SortedKeys(keys) <==> k in keys {
      assert k in SortedKeys(keys) <==> k in multiset(SortedKeys(keys));
    }
  }

  // ---- All the differences, in the order of the walk ----

  ghost function Differences(marshal: Json -> string, path: string, e: Json, a: Json, panelID: int): seq<DiffEntry>
    decreases e, 1, 0
  {
    if e.Object? && a.Object? then
      FieldDifferences(marshal, path, e, a, PanelID(path, e.fields, panelID), SortedKeys(e.fields.Keys + a.fields.Keys))
    else if e.Array? && a.Array? then
      ItemDifferences(marshal, path, e, a, panelID, if |e.items| > |a.items| then |e.items| else |a.items|)
    else if e != a then [DiffEntry(path, panelID, ScalarText(marshal, Some(e)), ScalarText(marshal, Some(a)))]
    else []
  }

  // At one key of two objects.
  ghost function FieldDifference(
    marshal: Json -> string, path: string, e: Json, a: Json, panelID: int, key: string): seq<DiffEntry>
    requires e.Object? && a.Object?
    decreases e, 0, 0
  {
    var l, r := At(e.fields, key), At(a.fields, key);
    if l.Some? != r.Some? then [DiffEntry(path + "." + key, panelID, ScalarText(marshal, l), ScalarText(marshal, r))]
    else if l.None? then []
    else Differences(marshal, path + "." + key, e.fields[key], a.fields[key], panelID)
  }

  ghost function FieldDifferences(
    marshal: Json -> string, path: string, e: Json, a: Json, panelID: int, keys: seq<string>): seq<DiffEntry>
    requires e.Object? && a.Object?
    decreases e, 0, |keys| + 1
  {
    if keys == [] then []
    else FieldDifferences(marshal, path, e, a, panelID, keys[..|keys| - 1])
         + FieldDifference(marshal, path, e, a, panelID, keys[|keys| - 1])
  }

  // At one index of two arrays.
  ghost function ItemDifference(
    marshal: Json -> string, path: string, e: Json, a: Json, panelID: int, i: nat): seq<DiffEntry>
    requires e.Array? && a.Array?
    decreases e, 0, 0
  {
    var child := path + "[" + Decimal(i) + "]";
    if i >= |e.items| || i >= |a.items| then
      [DiffEntry(child, panelID, ScalarText(marshal, ItemAt(e.items, i)), ScalarText(marshal, ItemAt(a.items, i)))]
    else Differences(marshal, child, e.items[i], a.items[i], panelID)
  }

  // At the first `count` indexes.
  ghost function ItemDifferences(
    marshal: Json -> string, path: string, e: Json, a: Json, panelID: int, count: nat): seq<DiffEntry>
    requires e.Array? && a.Array?
    decreases e, 0, count + 1
  {
    if count == 0 then []
    else ItemDifferences(marshal, path, e, a, panelID, count - 1)
         + ItemDifference(marshal, path, e, a, panelID, count - 1)
  }

  // ---- The walk as written, with its cap ----

  function Capped<T>(xs: seq<T>): (r: seq<T>)
    ensures |r| <= MaxEntries
  {
    if |xs| > MaxEntries then xs[..MaxEntries] else xs
  }

  lemma {:induction false} CapTwice<T>(x: seq<T>, a: seq<T>, b: seq<T>)
    ensures Capped(Capped(x + a) + b) == Capped(x + (a + b))
    ensures |Capped(x)| >= MaxEntries ==> Capped(x + a) == Capped(x)
  {
    assert x + (a + b) == x + a + b;
  }

  lemma {:induction false} CapFits<T>(x: seq<T>)
    requires |x| <= MaxEntries
    ensures Capped(x) == x && Capped(x + []) == x
  {
    assert x + [] == x;
  }

  class Walk {
    var entries: seq<DiffEntry>

    constructor ()
      ensures entries == []
    {
      entries := [];
    }

    method AppendEntry(entry: DiffEntry)
      requires |entries| <= MaxEntries
      modifies this
      ensures entries == Capped(old(entries) + [entry])
    {
      if |entries| < MaxEntries {
        entries := entries + [entry];
      } else {
        assert (entries + [entry])[..MaxEntries] == entries;
      }
    }

    method DiffValue(marshal: Json -> string, path: string, e: Json, a: Json, panelID: int)
      requires |entries| <= MaxEntries
      modifies this
      ensures entries == Capped(old(entries) + Differences(marshal, path, e, a, panelID))
      decreases e, 1, 0
    {
      hide Capped, SortedKeys, PanelID, FieldDifferences, ItemDifferences;
      CapFits(entries);
      if |entries| >= MaxEntries {
        CapTwice(entries, Differences(marshal, path, e, a, panelID), []);
        return;
      }
      if e.Object? && a.Object? {
        DiffObjects(marshal, path, e, a, PanelID(path, e.fields, panelID));
        return;
      }
      if e.Array? && a.Array? {
        DiffArrays(marshal, path, e, a, panelID);
        return;
      }
      if e != a {
        AppendEntry(DiffEntry(path, panelID, ScalarText(marshal, Some(e)), ScalarText(marshal, Some(a))));
      }
    }

    method DiffObjects(marshal: Json -> string, path: string, e: Json, a: Json, panelID: int)
      requires e.Object? && a.Object? && |entries| <= MaxEntries
      modifies this
      ensures entries == Capped(old(entries) + FieldDifferences(marshal, path, e, a, panelID,
          SortedKeys(e.fields.Keys + a.fields.Keys)))
      decreases e, 0, 1
    {
      hide Capped, SortedKeys, FieldDifference;
      var keys := SortedUnionKeys(e.fields, a.fields);
      ghost var before := entries;
      CapFits(before);
      for i := 0 to |keys|
        invariant |entries| <= MaxEntries
        invariant entries == Capped(before + FieldDifferences(marshal, path, e, a, panelID, keys[..i]))
      {
        assert keys[..i + 1][..i] == keys[..i];
        CapTwice(before, FieldDifferences(marshal, path, e, a, panelID, keys[..i]),
                 FieldDifference(marshal, path, e, a, panelID, keys[i]));
        DiffField(marshal, path, e, a, panelID, keys[i]);
      }
      assert keys[..|keys|] == keys;
    }

    // The loop body of the object case.
    method DiffField(marshal: Json -> string, path: string, e: Json, a: Json, panelID: int, key: string)
      requires e.Object? && a.Object? && |entries| <= MaxEntries
      modifies this
      ensures entries == Capped(old(entries) + FieldDifference(marshal, path, e, a, panelID, key))
      decreases e, 0, 0
    {
      hide Capped, Differences;
      CapFits(entries);
      var expected, actual := At(e.fields, key), At(a.fields, key);
      if expected.Some? != actual.Some? {
        AppendEntry(DiffEntry(path + "." + key, panelID, ScalarText(marshal, expected), ScalarText(marshal, actual)));
        return;
      }
      if expected.None? { return; }
      DiffValue(marshal, path + "." + key, e.fields[key], a.fields[key], panelID);
    }

    method DiffArrays(marshal: Json -> string, path: string, e: Json, a: Json, panelID: int)
      requires e.Array? && a.Array? && |entries| <= MaxEntries
      modifies this
      ensures entries == Capped(old(entries) + ItemDifferences(marshal, path, e, a, panelID,
          if |e.items| > |a.items| then |e.items| else |a.items|))
      decreases e, 0, 1
    {
      hide Capped, ItemDifference;
      var length := |e.items|;
      if |a.items| > length { length := |a.items|; }
      ghost var before := entries;
      CapFits(before);
      for i := 0 to length
        invariant |entries| <= MaxEntries
        invariant entries == Capped(before + ItemDifferences(marshal, path, e, a, panelID, i))
      {
        CapTwice(before, ItemDifferences(marshal, path, e, a, panelID, i), ItemDifference(marshal, path, e, a,
            panelID, i));
        DiffItem(marshal, path, e, a, panelID, i);
      }
    }

    // The loop body of the array case.
    method DiffItem(marshal: Json -> string, path: string, e: Json, a: Json, panelID: int, i: nat)
      requires e.Array? && a.Array? && |entries| <= MaxEntries
      modifies this
      ensures entries == Capped(old(entries) + ItemDifference(marshal, path, e, a, panelID, i))
      decreases e, 0, 0
    {
      hide Capped, Differences;
      var child := path + "[" + Decimal(i) + "]";
      if i >= |e.items| || i >= |a.items| {
        AppendEntry(DiffEntry(child, panelID, ScalarText(marshal, ItemAt(e.items, i)), ScalarText(marshal,
            ItemAt(a.items, i))));
        return;
      }
      DiffValue(marshal, child, e.items[i], a.items[i], panelID);
    }
  }

  // The keys of both maps, walked in any order and then sorted.
  method SortedUnionKeys(left: map<string, Json>, right: map<string, Json>) returns (keys: seq<string>)
    ensures keys == SortedKeys(left.Keys + right.Keys)
  {
    hide SortBy;
    var seen := left.Keys + right.Keys;
    var walk := seen;
    keys := [];
    while walk != {}
      invariant walk <= seen && multiset(keys) == multiset(seen - walk)
      decreases walk
    {
      var key :| key in walk;
      assert seen - (walk - {key}) == (seen - walk) + {key};
      walk := walk - {key};
      keys := keys + [key];
    }
    assert seen - walk == seen;
    ghost var unsorted := keys;
    keys := SortStrings(keys);
    SortStringsCanonical(unsorted, unsorted);
    KeysSorted(seen);
    StringOrder(multiset(keys));
    SortedUnique(StringLeq, keys, SortedKeys(seen));
  }

  method Diff(marshal: Json -> string, expected: Json, actual: Json) returns (entries: seq<DiffEntry>)
    ensures entries == Capped(Differences(marshal, "$", expected, actual, 0))
  {
    hide Capped, Differences;
    var walk := new Walk();
    walk.DiffValue(marshal, "$", expected, actual, 0);
    assert [] + Differences(marshal, "$", expected, actual, 0) == Differences(marshal, "$", expected, actual, 0);
    return walk.entries;
  }

  // ---- What the differences say ----

  lemma {:induction false} NoneMeansEqual(marshal: Json -> string, path: string, e: Json, a: Json, panelID: int)
    ensures Differences(marshal, path, e, a, panelID) == [] <==> e == a
    decreases e, 1, 0
  {
    if e.Object? && a.Object? {
      var keys := SortedKeys(e.fields.Keys + a.fields.Keys);
      KeyMembers(e.fields.Keys + a.fields.Keys);
      FieldsEqual(marshal, path, e, a, PanelID(path, e.fields, panelID), keys);
      if e != a { DifferentField(e.fields, a.fields); }
    } else if e.Array? && a.Array? {
      var count := if |e.items| > |a.items| then |e.items| else |a.items|;
      ItemsEqual(marshal, path, e, a, panelID, count);
      if e != a && |e.items| == |a.items| {
        var i :| 0 <= i < |e.items| && e.items[i] != a.items[i];
        assert ItemAt(e.items, i) != ItemAt(a.items, i);
      } else if e != a {
        assert ItemAt(e.items, count - 1) != ItemAt(a.items, count - 1);
      }
    }
  }

  lemma {:induction false} DifferentField(l: map<string, Json>, r: map<string, Json>)
    requires l != r
    ensures exists k :: k in l.Keys + r.Keys && At(l, k) != At(r, k)
  {
    if l.Keys == r.Keys {
      var k :| k in l && l[k] != r[k];
      assert At(l, k) != At(r, k);
    } else {
      var k :| k in l.Keys + r.Keys && !(k in l && k in r);
      assert At(l, k) != At(r, k);
    }
  }

  lemma {:induction false} FieldsEqual(
    marshal: Json -> string, path: string, e: Json, a: Json, panelID: int, keys: seq<string>)
    requires e.Object? && a.Object?
    ensures FieldDifferences(marshal, path, e, a, panelID, keys) == [] <==>
              forall k <- keys :: At(e.fields, k) == At(a.fields, k)
    decreases e, 0, |keys|
  {
    hide Differences, ScalarText;
    if keys != [] {
      var rest, last := keys[..|keys| - 1], keys[|keys| - 1];
      FieldsEqual(marshal, path, e, a, panelID, rest);
      if last in e.fields && last in a.fields {
        NoneMeansEqual(marshal, path + "." + last, e.fields[last], a.fields[last], panelID);
      }
      assert keys == rest + [last];
      assert forall k :: k in keys <==> k in rest || k == last;
    }
  }

  lemma {:induction false} ItemEqual(marshal: Json -> string, path: string, e: Json, a: Json, panelID: int, i: nat)
    requires e.Array? && a.Array? && (i < |e.items| || i < |a.items|)
    ensures ItemDifference(marshal, path, e, a, panelID, i) == [] <==> ItemAt(e.items, i) == ItemAt(a.items, i)
    decreases e, 0, 0
  {
    hide Differences, Decimal, ScalarText;
    if i < |e.items| && i < |a.items| {
      NoneMeansEqual(marshal, path + "[" + Decimal(i) + "]", e.items[i], a.items[i], panelID);
    }
  }

  lemma {:induction false} ItemsEqual(marshal: Json -> string, path: string, e: Json, a: Json, panelID: int, count: nat)
    requires e.Array? && a.Array? && (count <= |e.items| || count <= |a.items|)
    ensures ItemDifferences(marshal, path, e, a, panelID, count) == [] <==>
              forall i :: 0 <= i < count ==> ItemAt(e.items, i) == ItemAt(a.items, i)
    decreases e, 0, count + 1
  {
    hide ItemDifference, ItemAt;
    if count > 0 {
      ItemsEqual(marshal, path, e, a, panelID, count - 1);
      ItemEqual(marshal, path, e, a, panelID, count - 1);
    }
  }

  // The reported, capped difference is empty exactly when the documents are equal, and is the
  // first hundred entries of the whole.
  lemma {:induction false} CappedDiffDecides(marshal: Json -> string, e: Json, a: Json)
    ensures Capped(Differences(marshal, "$", e, a, 0)) == [] <==> e == a
    ensures Capped(Differences(marshal, "$", e, a, 0)) <= Differences(marshal, "$", e, a, 0)
    ensures |Capped(Differences(marshal, "$", e, a, 0))| < MaxEntries ==>
              Capped(Differences(marshal, "$", e, a, 0)) == Differences(marshal, "$", e, a, 0)
  {
    hide Differences;
    NoneMeansEqual(marshal, "$", e, a, 0);
  }

  // ---- Swapping the documents ----

  // The same places in the same order with the two values exchanged; the panel is always taken
  // from the expected document, so it may differ.
  ghost predicate Mirrors(xs: seq<DiffEntry>, ys: seq<DiffEntry>)
  {
    && |xs| == |ys|
    && forall i :: 0 <= i < |xs| ==>
         xs[i].path == ys[i].path && xs[i].expected == ys[i].actual && xs[i].actual == ys[i].expected
  }

  lemma {:induction false} SwapMirrors(marshal: Json -> string, path: string, e: Json, a: Json, id: int, other: int)
    ensures Mirrors(Differences(marshal, path, e, a, id), Differences(marshal, path, a, e, other))
    decreases e, 1, 0
  {
    hide FieldDifferences, ItemDifferences, SortedKeys, PanelID;
    if e.Object? && a.Object? {
      hide Mirrors;
      assert e.fields.Keys + a.fields.Keys == a.fields.Keys + e.fields.Keys;
      SwapFields(marshal, path, e, a, PanelID(path, e.fields, id), PanelID(path, a.fields, other),
                 SortedKeys(e.fields.Keys + a.fields.Keys));
    } else if e.Array? && a.Array? {
      hide Mirrors;
      SwapItems(marshal, path, e, a, id, other, if |e.items| > |a.items| then |e.items| else |a.items|);
    }
  }

  lemma {:induction false} MirrorsMore(xs: seq<DiffEntry>, ys: seq<DiffEntry>, x: seq<DiffEntry>, y: seq<DiffEntry>)
    requires Mirrors(xs, ys) && Mirrors(x, y)
    ensures Mirrors(xs + x, ys + y)
  {
  }

  lemma {:induction false} SwapField(
    marshal: Json -> string, path: string, e: Json, a: Json, id: int, other: int, key: string)
    requires e.Object? && a.Object?
    ensures Mirrors(FieldDifference(marshal, path, e, a, id, key), FieldDifference(marshal, path, a, e, other, key))
    decreases e, 0, 0
  {
    hide Differences;
    if key in e.fields && key in a.fields {
      SwapMirrors(marshal, path + "." + key, e.fields[key], a.fields[key], id, other);
    }
  }

  lemma {:induction false} SwapFields(
    marshal: Json -> string, path: string, e: Json, a: Json, id: int, other: int, keys: seq<string>)
    requires e.Object? && a.Object?
    ensures Mirrors(FieldDifferences(marshal, path, e, a, id, keys), FieldDifferences(marshal, path, a, e, other, keys))
    decreases e, 0, |keys| + 1
  {
    hide FieldDifference;
    if keys != [] {
      var rest, last := keys[..|keys| - 1], keys[|keys| - 1];
      SwapFields(marshal, path, e, a, id, other, rest);
      SwapField(marshal, path, e, a, id, other, last);
      MirrorsMore(FieldDifferences(marshal, path, e, a, id, rest), FieldDifferences(marshal, path, a, e, other, rest),
                  FieldDifference(marshal, path, e, a, id, last), FieldDifference(marshal, path, a, e, other, last));
    }
  }

  lemma {:induction false} SwapItem(
    marshal: Json -> string, path: string, e: Json, a: Json, id: int, other: int, i: nat)
    requires e.Array? && a.Array?
    ensures Mirrors(ItemDifference(marshal, path, e, a, id, i), ItemDifference(marshal, path, a, e, other, i))
    decreases e, 0, 0
  {
    hide Differences, Decimal;
    if i < |e.items| && i < |a.items| {
      SwapMirrors(marshal, path + "[" + Decimal(i) + "]", e.items[i], a.items[i], id, other);
    }
  }

  lemma {:induction false} SwapItems(
    marshal: Json -> string, path: string, e: Json, a: Json, id: int, other: int, count: nat)
    requires e.Array? && a.Array?
    ensures Mirrors(ItemDifferences(marshal, path, e, a, id, count), ItemDifferences(marshal, path, a, e, other, count))
    decreases e, 0, count + 1
  {
    hide ItemDifference;
    if count > 0 {
      SwapItems(marshal, path, e, a, id, other, count - 1);
      SwapItem(marshal, path, e, a, id, other, count - 1);
      MirrorsMore(ItemDifferences(marshal, path, e, a, id, count - 1),
                  ItemDifferences(marshal, path, a, e, other, count - 1),
                  ItemDifference(marshal, path, e, a, id, count - 1),
                  ItemDifference(marshal, path, a, e, other, count - 1));
    }
  }
}
