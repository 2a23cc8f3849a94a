/** Metric families: dashboard/overview/families.go and, with the same rules,
    `familyGroups` of dashboard/category/kafka.go. */
module Families {
  import opened Ordering
  import opened QueryNames
  import opened Catalog
  import opened QueryPlanner

  datatype FamilyCapabilities = FamilyCapabilities(rate: bool, errorRatio: bool, percentiles: bool, inFlight: bool)

  datatype Family = Family(
    key: string, name: string, typ: string, unit: string, attributes: seq<string>,
    planIDs: seq<string>, itemIDs: seq<string>, categories: seq<string>, items: seq<Item>,
    capabilities: FamilyCapabilities)

  // One metric with the item that declares it.
  datatype Entry = Entry(item: Item, metric: SignalReference)

  // ---- Keys ----

  function JoinComma(labels: seq<string>): string
  {
    if labels == [] then "" else if |labels| == 1 then labels[0] else labels[0] + "," + JoinComma(labels[1..])
  }

  function FamilyKey(name: string, typ: string, attributes: seq<string>): string
  {
    name + "\0" + typ + "\0" + JoinComma(attributes)
  }

  function Schema(m: SignalReference): seq<string> { SortStrings(m.attributes) }

  function KeyOf(m: SignalReference): string { FamilyKey(m.name, m.typ, Schema(m)) }

  function CapabilitiesFrom(typ: string, attributes: seq<string>): FamilyCapabilities
  {
    FamilyCapabilities(
      typ == "counter" && "service" in attributes && "operation" in attributes,
      typ == "counter" && "service" in attributes && "status" in attributes,
      typ == "histogram" && "service" in attributes,
      typ == "gauge" && "service" in attributes)
  }

  // ---- Grouping, one metric after another ----

  // Items count as the same when their IDs are.
  function AppendUniqueItem(values: seq<Item>, wanted: Item): seq<Item>
  {
    if exists v <- values :: v.id == wanted.id then values else values + [wanted]
  }

  function NewFamily(m: SignalReference): Family
  {
    Family(KeyOf(m), m.name, m.typ, m.unit, Schema(m), [], [], [], [], CapabilitiesFrom(m.typ, Schema(m)))
  }

  function Extend(f: Family, e: Entry): Family
  {
    f.(planIDs := AppendUnique(f.planIDs, e.metric.planID), itemIDs := AppendUnique(f.itemIDs, e.item.id),
       categories := AppendUnique(f.categories, e.item.category), items := AppendUniqueItem(f.items, e.item))
  }

  function AddEntry(table: map<string, Family>, e: Entry): map<string, Family>
  {
    var key := KeyOf(e.metric);
    table[key := Extend(if key in table then table[key] else NewFamily(e.metric), e)]
  }

  function Table(entries: seq<Entry>): map<string, Family>
  {
    if entries == [] then map[] else AddEntry(Table(entries[..|entries| - 1]), entries[|entries| - 1])
  }

  // The metrics with valid names, in order.
  function ItemEntries(item: Item, metrics: seq<SignalReference>): seq<Entry>
  {
    if metrics == [] then []
    else ItemEntries(item, metrics[..|metrics| - 1])
         + if ValidMetricName(metrics[|metrics| - 1].name) then [Entry(item, metrics[|metrics| - 1])] else []
  }

  function Entries(items: seq<Item>): seq<Entry>
  {
    if items == [] then []
    else var last := items[|items| - 1]; Entries(items[..|items| - 1]) + ItemEntries(last, last.metrics)
  }

  function Dropped(items: seq<Item>): seq<Diagnostic>
  {
    if items == [] then []
    else var last := items[|items| - 1]; Dropped(items[..|items| - 1]) + DroppedNames(last, last.metrics)
  }

  // ---- Sorting ----

  predicate ItemLeq(a: Item, b: Item) { StringLeq(a.id, b.id) }

  predicate FamilyLeq(a: Family, b: Family) { StringLeq(a.key, b.key) }

  function Finished(f: Family): Family
  {
    f.(planIDs := SortStrings(f.planIDs), itemIDs := SortStrings(f.itemIDs),
       categories := SortStrings(f.categories), items := SortBy(ItemLeq, f.items))
  }

  // The sorted families of a table: one per key, whatever order the map was walked in.
  ghost predicate FamiliesOf(table: map<string, Family>, families: seq<Family>)
  {
    && (forall i, j :: 0 <= i < j < |families| ==>
          StringLeq(families[i].key, families[j].key) && families[i].key != families[j].key)
    && (forall i :: 0 <= i < |families| ==>
          families[i].key in table && families[i] == Finished(table[families[i].key]))
    && (forall key <- table :: exists i :: 0 <= i < |families| && families[i].key == key)
  }

  // ---- The grouping as written ----

  method AppendUniqueItemTo(values: seq<Item>, wanted: Item) returns (r: seq<Item>)
    ensures r == AppendUniqueItem(values, wanted)
  {
    for i := 0 to |values|
      invariant forall j :: 0 <= j < i ==> values[j].id != wanted.id
    {
      if values[i].id == wanted.id { return values; }
    }
    return values + [wanted];
  }

  // The family table, with one family record per key, and the diagnostics.
  class Grouping {
    var byKey: map<string, Family>
    var diagnostics: seq<Diagnostic>

    constructor ()
      ensures byKey == map[] && diagnostics == []
    {
      byKey, diagnostics := map[], [];
    }

    method Add(item: Item, metric: SignalReference)
      modifies this
      ensures byKey == AddEntry(old(byKey), Entry(item, metric)) && diagnostics == old(diagnostics)
    {
      hide FamilyKey;
      var attributes := SortStrings(metric.attributes);
      var key := FamilyKey(metric.name, metric.typ, attributes);
      if key !in byKey {
        byKey := byKey[key := Family(key, metric.name, metric.typ, metric.unit, attributes, [], [], [], [],
                                     CapabilitiesFrom(metric.typ, attributes))];
      }
      var family := byKey[key];
      var items := AppendUniqueItemTo(family.items, item);
      byKey := byKey[key := family.(planIDs := AppendUnique(family.planIDs, metric.planID),
                                    itemIDs := AppendUnique(family.itemIDs, item.id),
                                    categories := AppendUnique(family.categories, item.category),
                                    items := items)];
    }

    method AddItem(item: Item, ghost before: seq<Entry>)
      requires byKey == Table(before)
      modifies this
      ensures byKey == Table(before + ItemEntries(item, item.metrics))
      ensures diagnostics == old(diagnostics) + DroppedNames(item, item.metrics)
    {
      hide Table, AddEntry, ValidMetricName;
      assert before + ItemEntries(item, item.metrics[..0]) == before;
      for j := 0 to |item.metrics|
        invariant byKey == Table(before + ItemEntries(item, item.metrics[..j]))
        invariant diagnostics == old(diagnostics) + DroppedNames(item, item.metrics[..j])
      {
        ghost var so := before + ItemEntries(item, item.metrics[..j]);
        assert item.metrics[..j + 1][..j] == item.metrics[..j];
        if !ValidMetricName(item.metrics[j].name) {
          diagnostics := diagnostics + [Diagnostic(SensitiveValueDropped, item.id, "metrics[].name")];
          assert before + ItemEntries(item, item.metrics[..j + 1]) == so;
        } else {
          Add(item, item.metrics[j]);
          TableSnoc(so, Entry(item, item.metrics[j]));
          assert before + ItemEntries(item, item.metrics[..j + 1]) == so + [Entry(item, item.metrics[j])];
        }
      }
      assert item.metrics[..|item.metrics|] == item.metrics;
    }
  }

  lemma {:induction false} TableSnoc(entries: seq<Entry>, e: Entry)
    ensures Table(entries + [e]) == AddEntry(Table(entries), e)
  {
    assert (entries + [e])[..|entries|] == entries;
  }

  method BuildFamilies(items: seq<Item>) returns (families: seq<Family>, diagnostics: seq<Diagnostic>)
    ensures FamiliesOf(Table(Entries(items)), families)
    ensures diagnostics == Dropped(items)
  {
    hide Table, FamiliesOf, Finished, ItemEntries, DroppedNames;
    var grouping := new Grouping();
    assert Table([]) == map[] by { TableEmpty(); }
    for i := 0 to |items|
      invariant grouping.byKey == Table(Entries(items[..i])) && grouping.diagnostics == Dropped(items[..i])
    {
      assert items[..i + 1][..i] == items[..i];
      grouping.AddItem(items[i], Entries(items[..i]));
    }
    assert items[..|items|] == items;
    TableKeyed(Entries(items));
    families := SortedFamilies(grouping.byKey);
    diagnostics := grouping.diagnostics;
  }

  lemma {:induction false} TableEmpty()
    ensures Table([]) == map[]
  {
  }

  // Every record is stored under its own key.
  ghost predicate Keyed(table: map<string, Family>)
  {
    forall key <- table :: table[key].key == key
  }

  lemma {:induction false} TableKeyed(entries: seq<Entry>)
    ensures Keyed(Table(entries))
  {
    if entries != [] {
      var rest, e := entries[..|entries| - 1], entries[|entries| - 1];
      TableKeyed(rest);
      EntryKeyed(Table(rest), e);
      assert Table(entries) == AddEntry(Table(rest), e);
    } else {
      assert Table(entries) == map[];
    }
  }

  lemma {:induction false} EntryKeyed(table: map<string, Family>, e: Entry)
    requires Keyed(table)
    ensures Keyed(AddEntry(table, e))
  {
    hide KeyOf, AppendUniqueItem, AppendUnique, CapabilitiesFrom, Schema;
    var key := KeyOf(e.metric);
    var family := if key in table then table[key] else NewFamily(e.metric);
    assert family.key == key;
    assert AddEntry(table, e) == table[key := Extend(family, e)];
  }

  // Every record once, in some order: what walking a Go map yields.
  ghost predicate Walked(table: map<string, Family>, fs: seq<Family>)
  {
    && (forall i :: 0 <= i < |fs| ==> fs[i].key in table && fs[i] == table[fs[i].key])
    && (forall i, j :: 0 <= i < j < |fs| ==> fs[i].key != fs[j].key)
    && (forall key <- table :: table[key] in fs)
  }

  method Walk(table: map<string, Family>) returns (walked: seq<Family>)
    requires Keyed(table)
    ensures Walked(table, walked)
  {
    var left := table.Keys;
    walked := [];
    while left != {}
      invariant left <= table.Keys
      invariant forall i :: 0 <= i < |walked| ==>
                  walked[i].key in table && walked[i].key !in left && walked[i] == table[walked[i].key]
      invariant forall i, j :: 0 <= i < j < |walked| ==> walked[i].key != walked[j].key
      invariant forall key :: key in table && key !in left ==> table[key] in walked
      decreases left
    {
      var key :| key in left;
      left := left - {key};
      walked := walked + [table[key]];
    }
  }

  // The records sorted by key, then each record's lists sorted.
  method SortedFamilies(table: map<string, Family>) returns (families: seq<Family>)
    requires Keyed(table)
    ensures FamiliesOf(table, families)
  {
    hide Finished, SortBy, Walked, FamilyLeq;
    var sorted := Walk(table);
    ghost var walked := sorted;
    sorted := SortBy(FamilyLeq, sorted);
    SortedStaysWalked(table, walked, sorted);
    families := [];
    for i := 0 to |sorted|
      invariant |families| == i && forall j :: 0 <= j < i ==> families[j] == Finished(sorted[j])
    {
      families := families + [Finished(sorted[i])];
    }
    FinishedAre(table, sorted, families);
  }

  lemma {:induction false} FinishedKey(f: Family)
    ensures Finished(f).key == f.key
  {
  }

  lemma {:induction false} FinishedAre(table: map<string, Family>, sorted: seq<Family>, families: seq<Family>)
    requires Keyed(table) && SortedBy(FamilyLeq, sorted) && Walked(table, sorted)
    requires |families| == |sorted| && forall j :: 0 <= j < |sorted| ==> families[j] == Finished(sorted[j])
    ensures FamiliesOf(table, families)
  {
    hide StringLeq, Finished;
    forall i | 0 <= i < |families| ensures families[i].key == sorted[i].key { FinishedKey(sorted[i]); }
    forall i, j | 0 <= i < j < |families|
      ensures StringLeq(families[i].key, families[j].key) && families[i].key != families[j].key
    {
      assert FamilyLeq(sorted[i], sorted[j]);
    }
    forall key | key in table ensures exists i :: 0 <= i < |families| && families[i].key == key {
      var i :| 0 <= i < |sorted| && sorted[i] == table[key];
      assert families[i].key == key;
    }
  }

  lemma {:induction false} FamilyOrder()
    ensures TotalPreorder(FamilyLeq)
  {
    forall a, b ensures FamilyLeq(a, b) || FamilyLeq(b, a) { StringLeqTotal(a.key, b.key); }
    forall a, b, c | FamilyLeq(a, b) && FamilyLeq(b, c) ensures FamilyLeq(a, c) {
      StringLeqTransitive(a.key, b.key, c.key);
    }
  }

  lemma {:induction false} SortedStaysWalked(table: map<string, Family>, walked: seq<Family>, sorted: seq<Family>)
    requires Walked(table, walked) && sorted == SortBy(FamilyLeq, walked)
    ensures Walked(table, sorted) && SortedBy(FamilyLeq, sorted)
  {
    hide StringLeq, SortedBy, FamilyLeq;
    FamilyOrder();
    SortBySorted(FamilyLeq, walked);
    forall f ensures f in sorted <==> f in walked { assert f in multiset(sorted) <==> f in multiset(walked); }
    forall i | 0 <= i < |sorted| ensures sorted[i].key in table && sorted[i] == table[sorted[i].key] {
      assert sorted[i] in walked;
    }
    forall i, j | 0 <= i < j < |sorted| ensures sorted[i].key != sorted[j].key {
      OnceEach(walked, sorted[i]);
      if sorted[i] == sorted[j] { Twice(sorted, i, j); }
    }
  }

  lemma {:induction false} Twice<T>(xs: seq<T>, i: nat, j: nat)
    requires i < j < |xs| && xs[i] == xs[j]
    ensures multiset(xs)[xs[i]] >= 2
  {
    assert xs == xs[..j] + xs[j..];
    assert xs[i] in xs[..j] && xs[i] in xs[j..] by { assert xs[..j][i] == xs[i] && xs[j..][0] == xs[j]; }
  }

  lemma {:induction false} OnceEach(xs: seq<Family>, f: Family)
    requires forall i, j :: 0 <= i < j < |xs| ==> xs[i].key != xs[j].key
    ensures multiset(xs)[f] <= 1
  {
    if xs != [] {
      assert xs == [xs[0]] + xs[1..];
      OnceEach(xs[1..], f);
    }
  }
}
