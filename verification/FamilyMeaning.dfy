/** What the families of Families are: a partition of the metrics with valid names by name,
    type and label set, whatever the order of the items. */
module FamilyMeaning {
  import opened Ordering
  import opened QueryNames
  import opened SelectorDomain
  import opened Catalog
  import opened Families

  // ---- The key identifies the family ----

  predicate NoComma(text: string) { text != "" && forall i :: 0 <= i < |text| ==> text[i] != ',' }

  predicate NoNul(s: string) { forall i :: 0 <= i < |s| ==> s[i] != '\0' }

  // A type without NUL and labels that are non-empty and hold no comma, as the catalog's are.
  predicate PlainMetric(m: SignalReference)
  {
    NoNul(m.typ) && forall a <- m.attributes :: NoComma(a)
  }

  predicate IsComma(c: char) { c == ',' }

  predicate IsNul(c: char) { c == '\0' }

  lemma {:induction false} JoinInjective(a: seq<string>, b: seq<string>)
    requires forall x <- a :: NoComma(x)
    requires forall x <- b :: NoComma(x)
    requires JoinComma(a) == JoinComma(b)
    ensures a == b
  {
    JoinShape(a);
    JoinShape(b);
    if a != [] && b != [] {
      assert a[0] in a && b[0] in b;
      SplitAt(IsComma, a[0], JoinRest(a), b[0], JoinRest(b));
      if |a| > 1 && |b| > 1 {
        assert JoinComma(a[1..]) == JoinRest(a)[1..] && JoinComma(b[1..]) == JoinRest(b)[1..];
        JoinInjective(a[1..], b[1..]);
      }
      assert a == [a[0]] + a[1..] && b == [b[0]] + b[1..];
    }
  }

  function JoinRest(a: seq<string>): string
  {
    if |a| <= 1 then "" else "," + JoinComma(a[1..])
  }

  lemma {:induction false} JoinShape(a: seq<string>)
    requires forall x <- a :: NoComma(x)
    ensures JoinComma(a) == "" <==> a == []
    ensures a != [] ==> JoinComma(a) == a[0] + JoinRest(a)
  {
    if a != [] {
      assert a[0] in a && NoComma(a[0]);
      if |a| == 1 {
        assert a[0] + "" == a[0];
      } else {
        var first, rest := a[0], JoinComma(a[1..]);
        assert JoinComma(a) == first + "," + rest;
        assert first + "," + rest == first + ("," + rest);
      }
    }
  }

  lemma {:induction false} SchemaLabels(m: SignalReference)
    requires PlainMetric(m)
    ensures forall x <- Schema(m) :: NoComma(x)
  {
    forall x | x in Schema(m) ensures NoComma(x) {
      assert x in multiset(Schema(m));
      assert x in multiset(m.attributes);
    }
  }

  lemma {:induction false} ValidNameNoNul(name: string)
    requires ValidMetricName(name)
    ensures NoNul(name)
  {
  }

  predicate SameFamily(m: SignalReference, n: SignalReference)
  {
    m.name == n.name && m.typ == n.typ && Schema(m) == Schema(n)
  }

  lemma {:induction false} KeyIdentifies(m: SignalReference, n: SignalReference)
    requires ValidMetricName(m.name) && ValidMetricName(n.name) && PlainMetric(m) && PlainMetric(n)
    ensures KeyOf(m) == KeyOf(n) <==> SameFamily(m, n)
    ensures Schema(m) == Schema(n) <==> multiset(m.attributes) == multiset(n.attributes)
  {
    hide ValidMetricName, JoinComma, SortStrings;
    SortStringsCanonical(m.attributes, n.attributes);
    if KeyOf(m) == KeyOf(n) {
      var x, y := m.typ + ("\0" + JoinComma(Schema(m))), n.typ + ("\0" + JoinComma(Schema(n)));
      assert KeyOf(m) == m.name + ("\0" + x) && KeyOf(n) == n.name + ("\0" + y);
      ValidNameNoNul(m.name);
      ValidNameNoNul(n.name);
      SplitAt(IsNul, m.name, "\0" + x, n.name, "\0" + y);
      assert x == ("\0" + x)[1..] && y == ("\0" + y)[1..];
      SplitAt(IsNul, m.typ, "\0" + JoinComma(Schema(m)), n.typ, "\0" + JoinComma(Schema(n)));
      assert JoinComma(Schema(m)) == ("\0" + JoinComma(Schema(m)))[1..];
      assert JoinComma(Schema(n)) == ("\0" + JoinComma(Schema(n)))[1..];
      SchemaLabels(m);
      SchemaLabels(n);
      JoinInjective(Schema(m), Schema(n));
    }
  }

  // Without that, different label sets share a key.
  lemma {:induction false} CommaCollides()
    ensures var m := SignalReference("p", "m", "counter", "", ["a,b"]);
            var n := SignalReference("q", "m", "counter", "", ["a", "b"]);
            KeyOf(m) == KeyOf(n) && !SameFamily(m, n)
  {
    assert SortStrings(["a,b"]) == ["a,b"] by { assert ["a,b"][1..] == []; }
    var two := ["a", "b"];
    assert two[1..] == ["b"] && ["b"][1..] == [];
    assert SortBy(StringLeq, ["b"]) == ["b"];
    assert SortStrings(two) == two;
    assert JoinComma(two) == "a" + "," + "b" by { assert JoinComma(["b"]) == "b"; }
    assert "a" + "," + "b" == "a,b";
  }

  // ---- What a record holds ----

  ghost function PlanIDs(es: seq<Entry>, key: string): set<string>
  {
    set e <- es | KeyOf(e.metric) == key :: e.metric.planID
  }

  ghost function ItemIDs(es: seq<Entry>, key: string): set<string>
  {
    set e <- es | KeyOf(e.metric) == key :: e.item.id
  }

  ghost function Categories(es: seq<Entry>, key: string): set<string>
  {
    set e <- es | KeyOf(e.metric) == key :: e.item.category
  }

  ghost function ItemSet(es: seq<Entry>, key: string): set<Item>
  {
    set e <- es | KeyOf(e.metric) == key :: e.item
  }

  // The ID of an item tells the item.
  ghost predicate IDsTell(items: set<Item>)
  {
    forall a, b :: a in items && b in items && a.id == b.id ==> a == b
  }

  ghost predicate Lists(f: Family, es: seq<Entry>)
  {
    && NoDup(f.planIDs) && ToSet(f.planIDs) == PlanIDs(es, f.key)
    && NoDup(f.itemIDs) && ToSet(f.itemIDs) == ItemIDs(es, f.key)
    && NoDup(f.categories) && ToSet(f.categories) == Categories(es, f.key)
    && NoDup(f.items) && ToSet(f.items) == ItemSet(es, f.key)
  }

  // Everything but the lists comes from one of the metrics with the record's key.
  ghost predicate Head(f: Family, m: SignalReference)
  {
    && f.key == KeyOf(m) && f.name == m.name && f.typ == m.typ && f.unit == m.unit && f.attributes == Schema(m)
    && f.capabilities == CapabilitiesFrom(m.typ, Schema(m))
  }

  ghost predicate Record(f: Family, es: seq<Entry>)
  {
    Lists(f, es) && exists e <- es :: Head(f, e.metric)
  }

  lemma {:induction false} AppendUniqueItemSame(values: seq<Item>, wanted: Item, all: set<Item>)
    requires IDsTell(all) && ToSet(values) <= all && wanted in all
    ensures AppendUniqueItem(values, wanted) == AppendUnique(values, wanted)
  {
    forall v | v in values && v.id == wanted.id ensures v == wanted { assert v in ToSet(values); }
  }

  ghost function AllItems(es: seq<Entry>): set<Item> { set e <- es :: e.item }

  lemma {:induction false} SetsSnoc(es: seq<Entry>, e: Entry, key: string)
    ensures KeyOf(e.metric) == key ==>
              && PlanIDs(es + [e], key) == PlanIDs(es, key) + {e.metric.planID}
              && ItemIDs(es + [e], key) == ItemIDs(es, key) + {e.item.id}
              && Categories(es + [e], key) == Categories(es, key) + {e.item.category}
              && ItemSet(es + [e], key) == ItemSet(es, key) + {e.item}
    ensures KeyOf(e.metric) != key ==>
              && PlanIDs(es + [e], key) == PlanIDs(es, key) && ItemIDs(es + [e], key) == ItemIDs(es, key)
              && Categories(es + [e], key) == Categories(es, key) && ItemSet(es + [e], key) == ItemSet(es, key)
  {
    hide KeyOf;
    var both := es + [e];
    assert forall x :: x in both <==> x in es || x == e;
  }

  lemma {:induction false} ExtendRecord(f: Family, es: seq<Entry>, e: Entry)
    requires Lists(f, es) && KeyOf(e.metric) == f.key && IDsTell(AllItems(es + [e]))
    ensures Lists(Extend(f, e), es + [e])
  {
    hide KeyOf, NoDup, ToSet, PlanIDs, ItemIDs, Categories, ItemSet, IDsTell, AppendUnique, AppendUniqueItem;
    SetsSnoc(es, e, f.key);
    AppendUniqueSet(f.planIDs, e.metric.planID);
    AppendUniqueSet(f.itemIDs, e.item.id);
    AppendUniqueSet(f.categories, e.item.category);
    AppendUniqueSet(f.items, e.item);
    ItemsAmongAll(es, e, f.key);
    AppendUniqueItemSame(f.items, e.item, AllItems(es + [e]));
  }

  lemma {:induction false} ItemsAmongAll(es: seq<Entry>, e: Entry, key: string)
    ensures ItemSet(es, key) <= AllItems(es + [e]) && e.item in AllItems(es + [e])
  {
    var both := es + [e];
    assert forall x :: x in both <==> x in es || x == e;
  }

  lemma {:induction false} NewRecord(m: SignalReference, es: seq<Entry>)
    requires forall e <- es :: KeyOf(e.metric) != KeyOf(m)
    ensures Lists(NewFamily(m), es) && Head(NewFamily(m), m)
  {
    hide KeyOf;
  }

  // Every entry's family is in the table, every record is in it under its key, and it lists
  // exactly the plan IDs, items and categories of the entries with that key.
  lemma {:induction false} TableMeans(es: seq<Entry>)
    requires IDsTell(AllItems(es))
    ensures Table(es).Keys == set e <- es :: KeyOf(e.metric)
    ensures forall key <- Table(es) :: Table(es)[key].key == key && Record(Table(es)[key], es)
  {
    hide KeyOf, Lists, Head, Extend, NewFamily, IDsTell;
    if es != [] {
      var rest, e := es[..|es| - 1], es[|es| - 1];
      assert es == rest + [e];
      AllSnoc(rest, e);
      TableMeans(rest);
      TableSnoc(rest, e);
      var key := KeyOf(e.metric);
      var table := Table(rest);
      assert forall x :: x in es <==> x in rest || x == e;
      if key in table {
        KnownKey(table[key], rest, e);
      } else {
        forall x | x in rest ensures KeyOf(x.metric) != key { assert KeyOf(x.metric) in table; }
        FreshKey(rest, e);
      }
      forall other | other in table && other != key ensures Record(table[other], es) {
        OtherKey(table[other], rest, e);
      }
    }
  }

  lemma {:induction false} AllSnoc(rest: seq<Entry>, e: Entry)
    requires IDsTell(AllItems(rest + [e]))
    ensures IDsTell(AllItems(rest))
  {
    assert AllItems(rest) <= AllItems(rest + [e]) by {
      var both := rest + [e];
      assert forall x :: x in both <==> x in rest || x == e;
    }
  }

  lemma {:induction false} KnownKey(f: Family, rest: seq<Entry>, e: Entry)
    requires Record(f, rest) && f.key == KeyOf(e.metric) && IDsTell(AllItems(rest + [e]))
    ensures Record(Extend(f, e), rest + [e]) && Extend(f, e).key == f.key
  {
    hide KeyOf, Lists, CapabilitiesFrom;
    ExtendRecord(f, rest, e);
    var x :| x in rest && Head(f, x.metric);
    assert x in rest + [e] && Head(Extend(f, e), x.metric);
  }

  lemma {:induction false} FreshKey(rest: seq<Entry>, e: Entry)
    requires IDsTell(AllItems(rest + [e])) && forall x <- rest :: KeyOf(x.metric) != KeyOf(e.metric)
    ensures var f := Extend(NewFamily(e.metric), e); Record(f, rest + [e]) && f.key == KeyOf(e.metric)
  {
    hide KeyOf, Lists, CapabilitiesFrom;
    NewRecord(e.metric, rest);
    ExtendRecord(NewFamily(e.metric), rest, e);
    assert (rest + [e])[|rest|] == e;
    assert e in rest + [e] && Head(Extend(NewFamily(e.metric), e), e.metric);
  }

  lemma {:induction false} OtherKey(f: Family, rest: seq<Entry>, e: Entry)
    requires Record(f, rest) && f.key != KeyOf(e.metric)
    ensures Record(f, rest + [e])
  {
    hide KeyOf, Head, PlanIDs, ItemIDs, Categories, ItemSet, NoDup, ToSet;
    SetsSnoc(rest, e, f.key);
    var x :| x in rest && Head(f, x.metric);
    assert x in rest + [e];
  }

  // ---- Sorting keeps the lists ----

  lemma {:induction false} FinishedRecord(f: Family, es: seq<Entry>)
    requires Record(f, es)
    ensures Record(Finished(f), es)
  {
    hide KeyOf, CapabilitiesFrom, NoDup, ToSet, PlanIDs, ItemIDs, Categories, ItemSet;
    SortKeeps(f.planIDs, SortStrings(f.planIDs));
    SortKeeps(f.itemIDs, SortStrings(f.itemIDs));
    SortKeeps(f.categories, SortStrings(f.categories));
    SortKeeps(f.items, SortBy(ItemLeq, f.items));
    var x :| x in es && Head(f, x.metric);
    assert Head(Finished(f), x.metric);
  }

  // ---- The partition ----

  ghost predicate UniqueIDs(items: seq<Item>)
  {
    forall i, j :: 0 <= i < j < |items| ==> items[i].id != items[j].id
  }

  ghost predicate PlainCatalog(items: seq<Item>)
  {
    UniqueIDs(items) && forall item <- items :: forall m <- item.metrics :: PlainMetric(m)
  }

  // A metric with a valid name declared by one of the items.
  ghost predicate Declares(items: seq<Item>, e: Entry)
  {
    e.item in items && e.metric in e.item.metrics && ValidMetricName(e.metric.name)
  }

  lemma {:induction false} ItemEntriesAre(item: Item, metrics: seq<SignalReference>, e: Entry)
    ensures e in ItemEntries(item, metrics) <==> e.item == item && e.metric in metrics && ValidMetricName(e.metric.name)
  {
    hide ValidMetricName;
    if metrics != [] {
      var rest, last := metrics[..|metrics| - 1], metrics[|metrics| - 1];
      ItemEntriesAre(item, rest, e);
      assert metrics == rest + [last];
    }
  }

  lemma {:induction false} EntriesAre(items: seq<Item>, e: Entry)
    ensures e in Entries(items) <==> Declares(items, e)
  {
    hide ValidMetricName, ItemEntries;
    if items != [] {
      var rest, last := items[..|items| - 1], items[|items| - 1];
      EntriesAre(rest, e);
      ItemEntriesAre(last, last.metrics, e);
      assert items == rest + [last];
    }
  }

  lemma {:induction false} CatalogIDsTell(items: seq<Item>)
    requires UniqueIDs(items)
    ensures IDsTell(AllItems(Entries(items)))
  {
    forall a, b | a in AllItems(Entries(items)) && b in AllItems(Entries(items)) && a.id == b.id ensures a == b {
      var d :| d in Entries(items) && d.item == a;
      var e :| e in Entries(items) && e.item == b;
      EntriesAre(items, d);
      EntriesAre(items, e);
      var i :| 0 <= i < |items| && items[i] == a;
      var j :| 0 <= j < |items| && items[j] == b;
    }
  }

  ghost predicate Groups(f: Family, m: SignalReference)
  {
    f.name == m.name && f.typ == m.typ && f.attributes == Schema(m)
  }

  // The family lists exactly what the metrics of its name, type and label set bring.
  ghost predicate ListsExactly(items: seq<Item>, f: Family)
  {
    && (forall id :: id in f.planIDs <==>
          exists e :: Declares(items, e) && Groups(f, e.metric) && e.metric.planID == id)
    && (forall id :: id in f.itemIDs <==> exists e :: Declares(items, e) && Groups(f, e.metric) && e.item.id == id)
    && (forall c :: c in f.categories <==>
          exists e :: Declares(items, e) && Groups(f, e.metric) && e.item.category == c)
    && (forall item :: item in f.items <==> exists e :: Declares(items, e) && Groups(f, e.metric) && e.item == item)
  }

  lemma {:induction false} RecordGroups(items: seq<Item>, f: Family, e: Entry)
    requires PlainCatalog(items) && Record(f, Entries(items)) && Declares(items, e)
    ensures KeyOf(e.metric) == f.key <==> Groups(f, e.metric)
  {
    hide KeyOf, CapabilitiesFrom, Lists, ValidMetricName, PlainMetric, Schema;
    var x :| x in Entries(items) && Head(f, x.metric);
    EntriesAre(items, x);
    KeyIdentifies(e.metric, x.metric);
  }

  lemma {:induction false} RecordLists(items: seq<Item>, f: Family)
    requires PlainCatalog(items) && Record(f, Entries(items))
    ensures ListsExactly(items, f)
  {
    hide KeyOf, Head, NoDup, Declares, PlainCatalog, Groups, Entries;
    var es := Entries(items);
    forall e ensures e in es && KeyOf(e.metric) == f.key <==> Declares(items, e) && Groups(f, e.metric) {
      EntriesAre(items, e);
      if Declares(items, e) { RecordGroups(items, f, e); }
    }
    forall id
      ensures id in f.planIDs <==> exists e :: Declares(items, e) && Groups(f, e.metric) && e.metric.planID == id
    {
      assert id in f.planIDs <==> id in PlanIDs(es, f.key);
    }
    forall id ensures id in f.itemIDs <==> exists e :: Declares(items, e) && Groups(f, e.metric) && e.item.id == id {
      assert id in f.itemIDs <==> id in ItemIDs(es, f.key);
    }
    forall c
      ensures c in f.categories <==> exists e :: Declares(items, e) && Groups(f, e.metric) && e.item.category == c
    {
      assert c in f.categories <==> c in Categories(es, f.key);
    }
    forall item ensures item in f.items <==> exists e :: Declares(items, e) && Groups(f, e.metric) && e.item == item {
      assert item in f.items <==> item in ItemSet(es, f.key);
    }
  }

  lemma {:induction false} EachIsRecord(items: seq<Item>, families: seq<Family>)
    requires PlainCatalog(items) && FamiliesOf(Table(Entries(items)), families)
    ensures forall f <- families :: Record(f, Entries(items))
  {
    hide Table, Record, Entries, Finished, KeyOf;
    CatalogIDsTell(items);
    TableMeans(Entries(items));
    forall f | f in families ensures Record(f, Entries(items)) {
      FinishedRecord(Table(Entries(items))[f.key], Entries(items));
    }
  }

  // Every metric with a valid name is in exactly one family, the one with its name, type and
  // label set, and every family lists exactly what its metrics bring, each thing once.
  lemma {:induction false} FamiliesPartition(items: seq<Item>, families: seq<Family>)
    requires PlainCatalog(items) && FamiliesOf(Table(Entries(items)), families)
    ensures forall e | Declares(items, e) :: exists i :: 0 <= i < |families| && Groups(families[i], e.metric)
    ensures forall i, j, m :: 0 <= i < j < |families| && Groups(families[i], m) ==> !Groups(families[j], m)
    ensures forall f <- families :: ListsExactly(items, f) && f.items != []
    ensures forall f <- families :: NoDup(f.planIDs) && NoDup(f.itemIDs) && NoDup(f.categories) && NoDup(f.items)
    ensures forall f <- families :: ValidMetricName(f.name) && f.capabilities == CapabilitiesFrom(f.typ, f.attributes)
  {
    hide Table, KeyOf, Finished, ListsExactly, Declares, Groups, PlainCatalog, Head, ValidMetricName, CapabilitiesFrom;
    EachIsRecord(items, families);
    forall f | f in families
      ensures ListsExactly(items, f) && f.items != []
      ensures ValidMetricName(f.name) && f.capabilities == CapabilitiesFrom(f.typ, f.attributes)
    {
      RecordLists(items, f);
      SomeItem(items, f);
      RecordHead(items, f);
    }
    forall e | Declares(items, e) ensures exists i :: 0 <= i < |families| && Groups(families[i], e.metric) {
      EntriesAre(items, e);
      PlainCatalogTells(items);
      TableMeans(Entries(items));
      assert KeyOf(e.metric) in Table(Entries(items));
      var i :| 0 <= i < |families| && families[i].key == KeyOf(e.metric);
      RecordGroups(items, families[i], e);
    }
    forall i, j, m | 0 <= i < j < |families| && Groups(families[i], m) ensures !Groups(families[j], m) {
      NotBoth(items, families[i], families[j], m);
    }
  }

  lemma {:induction false} PlainCatalogTells(items: seq<Item>)
    requires PlainCatalog(items)
    ensures IDsTell(AllItems(Entries(items)))
  {
    CatalogIDsTell(items);
  }

  lemma {:induction false} RecordHead(items: seq<Item>, f: Family)
    requires Record(f, Entries(items))
    ensures ValidMetricName(f.name) && f.capabilities == CapabilitiesFrom(f.typ, f.attributes)
  {
    hide KeyOf, CapabilitiesFrom, Lists, ValidMetricName, Schema;
    var x :| x in Entries(items) && Head(f, x.metric);
    EntriesAre(items, x);
  }

  lemma {:induction false} SomeItem(items: seq<Item>, f: Family)
    requires Record(f, Entries(items))
    ensures f.items != []
  {
    hide KeyOf, CapabilitiesFrom;
    var x :| x in Entries(items) && Head(f, x.metric);
    assert x.item in ItemSet(Entries(items), f.key);
    assert x.item in ToSet(f.items);
  }

  lemma {:induction false} NotBoth(items: seq<Item>, f: Family, g: Family, m: SignalReference)
    requires PlainCatalog(items) && Record(f, Entries(items)) && Record(g, Entries(items)) && f.key != g.key
    requires Groups(f, m)
    ensures !Groups(g, m)
  {
    hide KeyOf, CapabilitiesFrom, Lists, PlainMetric, Schema, ValidMetricName;
    var x :| x in Entries(items) && Head(f, x.metric);
    var y :| y in Entries(items) && Head(g, y.metric);
    EntriesAre(items, x);
    EntriesAre(items, y);
    KeyIdentifies(x.metric, y.metric);
  }

  // ---- The order of the items ----

  lemma {:induction false} ItemOrder(xs: multiset<Item>)
    requires forall a, b :: a in xs && b in xs && a.id == b.id ==> a == b
    ensures TotalPreorder(ItemLeq) && NoTies(ItemLeq, xs)
  {
    forall a, b ensures ItemLeq(a, b) || ItemLeq(b, a) { StringLeqTotal(a.id, b.id); }
    forall a, b, c | ItemLeq(a, b) && ItemLeq(b, c) ensures ItemLeq(a, c) { StringLeqTransitive(a.id, b.id, c.id); }
    forall a, b | a in xs && b in xs && ItemLeq(a, b) && ItemLeq(b, a) ensures a == b {
      StringLeqAntisymmetric(a.id, b.id);
    }
  }

  // Lists with the same members, sorted, are the same lists.
  lemma {:induction false} SameMembersSameOrder(f: Family, g: Family, all: set<Item>)
    requires IDsTell(all) && ToSet(f.items) <= all
    requires NoDup(f.planIDs) && NoDup(g.planIDs) && ToSet(f.planIDs) == ToSet(g.planIDs)
    requires NoDup(f.itemIDs) && NoDup(g.itemIDs) && ToSet(f.itemIDs) == ToSet(g.itemIDs)
    requires NoDup(f.categories) && NoDup(g.categories) && ToSet(f.categories) == ToSet(g.categories)
    requires NoDup(f.items) && NoDup(g.items) && ToSet(f.items) == ToSet(g.items)
    ensures SortStrings(f.planIDs) == SortStrings(g.planIDs) && SortStrings(f.itemIDs) == SortStrings(g.itemIDs)
    ensures SortStrings(f.categories) == SortStrings(g.categories)
    ensures SortBy(ItemLeq, f.items) == SortBy(ItemLeq, g.items)
  {
    hide NoDup, SortStrings, SortBy, ItemLeq;
    SameSetSameMultiset(f.planIDs, g.planIDs);
    SameSetSameMultiset(f.itemIDs, g.itemIDs);
    SameSetSameMultiset(f.categories, g.categories);
    SameSetSameMultiset(f.items, g.items);
    SortStringsCanonical(f.planIDs, g.planIDs);
    SortStringsCanonical(f.itemIDs, g.itemIDs);
    SortStringsCanonical(f.categories, g.categories);
    forall a, b | a in multiset(f.items) && b in multiset(f.items) && a.id == b.id ensures a == b {
      assert a in ToSet(f.items) && b in ToSet(f.items);
    }
    ItemOrder(multiset(f.items));
    SortByCanonical(ItemLeq, f.items, g.items);
  }

  // Two catalogs with the same items give the same families in the same order; only the unit,
  // which no query uses, may differ.
  lemma {:induction false} OrderDoesNotMatter(items: seq<Item>, others: seq<Item>, fs: seq<Family>, gs: seq<Family>)
    requires multiset(items) == multiset(others) && PlainCatalog(items) && PlainCatalog(others)
    requires FamiliesOf(Table(Entries(items)), fs) && FamiliesOf(Table(Entries(others)), gs)
    ensures |fs| == |gs|
    ensures forall i :: 0 <= i < |fs| ==> fs[i].(unit := "") == gs[i].(unit := "")
  {
    hide Table, KeyOf, Finished, PlainCatalog, Record, Entries, StringLeq;
    SameEntries(items, others);
    TablesAgree(items, others);
    SameKeysSameOrder(fs, gs, Table(Entries(items)), Table(Entries(others)));
    forall i | 0 <= i < |fs| ensures fs[i].(unit := "") == gs[i].(unit := "") {
      FinishedAgree(items, others, fs[i].key);
    }
  }

  lemma {:induction false} SameEntries(items: seq<Item>, others: seq<Item>)
    requires multiset(items) == multiset(others)
    ensures forall e :: e in Entries(items) <==> e in Entries(others)
  {
    forall e ensures e in Entries(items) <==> e in Entries(others) {
      EntriesAre(items, e);
      EntriesAre(others, e);
      assert e.item in items <==> e.item in multiset(items);
      assert e.item in others <==> e.item in multiset(others);
    }
  }

  lemma {:induction false} TablesAgree(items: seq<Item>, others: seq<Item>)
    requires PlainCatalog(items) && PlainCatalog(others)
    requires forall e :: e in Entries(items) <==> e in Entries(others)
    ensures Table(Entries(items)).Keys == Table(Entries(others)).Keys
    ensures forall key <- Table(Entries(items)) ::
              Table(Entries(items))[key].key == key && Record(Table(Entries(items))[key], Entries(items))
    ensures forall key <- Table(Entries(others)) ::
              Table(Entries(others))[key].key == key && Record(Table(Entries(others))[key], Entries(others))
  {
    hide Table, KeyOf, Record, Entries;
    PlainCatalogTells(items);
    PlainCatalogTells(others);
    TableMeans(Entries(items));
    TableMeans(Entries(others));
  }

  function KeyList(fs: seq<Family>): seq<string> { Apply((f: Family) => f.key, fs) }

  lemma {:induction false} KeyListIs(fs: seq<Family>, t: map<string, Family>)
    requires FamiliesOf(t, fs)
    ensures |KeyList(fs)| == |fs| && forall i :: 0 <= i < |fs| ==> KeyList(fs)[i] == fs[i].key
    ensures NoDup(KeyList(fs)) && ToSet(KeyList(fs)) == t.Keys && SortedBy(StringLeq, KeyList(fs))
  {
    hide Finished, StringLeq, NoDup;
    var a := KeyList(fs);
    KeysDistinct(a);
    forall key | key in t ensures key in ToSet(a) {
      var j :| 0 <= j < |fs| && fs[j].key == key;
      assert a[j] == key;
    }
  }

  // Sorted lists of the same distinct keys have the same keys.
  lemma {:induction false} SameKeysSameOrder(
    fs: seq<Family>, gs: seq<Family>, s: map<string, Family>, t: map<string, Family>)
    requires FamiliesOf(s, fs) && FamiliesOf(t, gs) && s.Keys == t.Keys
    ensures |fs| == |gs| && forall i :: 0 <= i < |fs| ==> fs[i].key == gs[i].key
  {
    hide FamiliesOf, Finished, StringLeq, KeyList, NoDup, SortedBy, ToSet;
    KeyListIs(fs, s);
    KeyListIs(gs, t);
    SameSetSameMultiset(KeyList(fs), KeyList(gs));
    StringOrder(multiset(KeyList(fs)));
    SortedUnique(StringLeq, KeyList(fs), KeyList(gs));
  }

  lemma {:induction false} KeysDistinct(a: seq<string>)
    requires forall i, j :: 0 <= i < j < |a| ==> a[i] != a[j]
    ensures NoDup(a)
  {
    if a != [] {
      KeysDistinct(a[1..]);
      assert a == [a[0]] + a[1..];
      assert a[0] !in a[1..];
    }
  }

  lemma {:induction false} FinishedAgree(items: seq<Item>, others: seq<Item>, key: string)
    requires PlainCatalog(items) && PlainCatalog(others)
    requires forall e :: e in Entries(items) <==> e in Entries(others)
    requires key in Table(Entries(items)) && key in Table(Entries(others))
    requires Table(Entries(items))[key].key == key && Record(Table(Entries(items))[key], Entries(items))
    requires Table(Entries(others))[key].key == key && Record(Table(Entries(others))[key], Entries(others))
    ensures Finished(Table(Entries(items))[key]).(unit := "") == Finished(Table(Entries(others))[key]).(unit := "")
  {
    hide Table, KeyOf, NoDup, Entries, SortStrings, SortBy, ToSet, IDsTell;
    var f, g := Table(Entries(items))[key], Table(Entries(others))[key];
    PlainCatalogTells(items);
    SetsAgree(Entries(items), Entries(others), key);
    SameMembersSameOrder(f, g, AllItems(Entries(items)));
    HeadsAgree(items, others, f, g);
  }

  lemma {:induction false} SetsAgree(es: seq<Entry>, ds: seq<Entry>, key: string)
    requires forall e :: e in es <==> e in ds
    ensures PlanIDs(es, key) == PlanIDs(ds, key) && ItemIDs(es, key) == ItemIDs(ds, key)
    ensures Categories(es, key) == Categories(ds, key) && ItemSet(es, key) == ItemSet(ds, key)
    ensures ItemSet(es, key) <= AllItems(es)
  {
    hide KeyOf;
  }

  lemma {:induction false} HeadsAgree(items: seq<Item>, others: seq<Item>, f: Family, g: Family)
    requires PlainCatalog(items) && PlainCatalog(others) && f.key == g.key
    requires Record(f, Entries(items)) && Record(g, Entries(others))
    ensures f.name == g.name && f.typ == g.typ && f.attributes == g.attributes && f.capabilities == g.capabilities
  {
    hide KeyOf, CapabilitiesFrom, Lists, PlainMetric, Schema, ValidMetricName;
    var x :| x in Entries(items) && Head(f, x.metric);
    var y :| y in Entries(others) && Head(g, y.metric);
    EntriesAre(items, x);
    EntriesAre(others, y);
    KeyIdentifies(x.metric, y.metric);
  }

  // The unit is that of the first metric met, so it does follow the order of the items.
  lemma {:induction false} UnitIsFirst(es: seq<Entry>, first: nat)
    requires first < |es| && forall i :: 0 <= i < first ==> KeyOf(es[i].metric) != KeyOf(es[first].metric)
    ensures KeyOf(es[first].metric) in Table(es) && Table(es)[KeyOf(es[first].metric)].unit == es[first].metric.unit
  {
    hide KeyOf, AppendUnique, AppendUniqueItem, CapabilitiesFrom;
    var rest := es[..|es| - 1];
    if first < |es| - 1 {
      UnitIsFirst(rest, first);
    } else {
      KeysOfTable(rest, KeyOf(es[first].metric));
    }
  }

  lemma {:induction false} KeysOfTable(es: seq<Entry>, key: string)
    requires forall i :: 0 <= i < |es| ==> KeyOf(es[i].metric) != key
    ensures key !in Table(es)
  {
    hide KeyOf, Extend, NewFamily;
    if es != [] { KeysOfTable(es[..|es| - 1], key); }
  }
}
