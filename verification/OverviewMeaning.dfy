/** Which panels a catalog gives, told from its metrics alone: familyCapabilitiesFrom
    (dashboard/overview/families.go, dashboard/category/kafka.go) behind the gates of
    dashboard/overview/queries.go. */
module OverviewMeaning {
  import opened QueryNames
  import opened Catalog
  import opened Families
  import opened FamilyMeaning
  import opened OverviewTargets
  import opened OverviewPanels

  // A metric of this type with these labels can answer the panel's question for one service.
  predicate Feeds(c: PanelClass, typ: string, labels: seq<string>)
  {
    "service" in labels
        && match c
           case RequestRate => typ == "counter" && "operation" in labels
           case ErrorRatio => typ == "counter" && "status" in labels
           case Percentile(_) => typ == "histogram"
           case InFlight => typ == "gauge"
           case TopFailing => typ == "counter" && "status" in labels
  }

  ghost predicate Fed(items: seq<Item>, c: PanelClass)
  {
    exists e :: Declares(items, e) && Feeds(c, e.metric.typ, e.metric.attributes)
  }

  lemma {:induction false} GateIsFeeds(c: PanelClass, f: Family)
    requires f.capabilities == CapabilitiesFrom(f.typ, f.attributes)
    ensures Gate(c)(f.capabilities) <==> Feeds(c, f.typ, f.attributes)
  {
  }

  lemma {:induction false} SchemaFeeds(c: PanelClass, m: SignalReference)
    ensures Feeds(c, m.typ, Schema(m)) <==> Feeds(c, m.typ, m.attributes)
  {
    var schema := Schema(m);
    forall l ensures l in schema <==> l in m.attributes {
      assert l in schema <==> l in multiset(schema);
      assert l in m.attributes <==> l in multiset(m.attributes);
    }
  }

  lemma {:induction false} GatedHolds(families: seq<Family>, gate: FamilyCapabilities -> bool, f: Family)
    ensures f in Gated(families, gate) <==> f in families && gate(f.capabilities)
  {
    if families != [] {
      var rest, last := families[..|families| - 1], families[|families| - 1];
      GatedHolds(rest, gate, f);
      assert families == rest + [last];
    }
  }

  // A panel has a target for exactly the families that can feed it, and is shown exactly when some metric
  // of the catalog, with a controlled name, has the type and the labels it needs.
  lemma {:induction false} PanelShownExactlyWhen(items: seq<Item>, families: seq<Family>, c: PanelClass)
    requires PlainCatalog(items) && FamiliesOf(Table(Entries(items)), families)
    ensures forall f :: f in Gated(families, Gate(c)) <==> f in families && Feeds(c, f.typ, f.attributes)
    ensures Gated(families, Gate(c)) != [] <==> Fed(items, c)
  {
    hide PlainCatalog, FamiliesOf, Table, Entries, ListsExactly, Declares, Feeds, CapabilitiesFrom, Schema, Gated;
    hide Gate, ValidMetricName;
    FamiliesPartition(items, families);
    forall f ensures f in Gated(families, Gate(c)) <==> f in families && Feeds(c, f.typ, f.attributes) {
      GatedHolds(families, Gate(c), f);
      if f in families { GateIsFeeds(c, f); }
    }
    if Gated(families, Gate(c)) != [] {
      var f := Gated(families, Gate(c))[0];
      var e := SomeEntry(items, f);
      SchemaFeeds(c, e.metric);
    }
    if Fed(items, c) {
      var e :| Declares(items, e) && Feeds(c, e.metric.typ, e.metric.attributes);
      var i :| 0 <= i < |families| && Groups(families[i], e.metric);
      SchemaFeeds(c, e.metric);
      assert families[i] in Gated(families, Gate(c));
    }
  }

  lemma {:induction false} SomeEntry(items: seq<Item>, f: Family) returns (e: Entry)
    requires ListsExactly(items, f) && f.items != []
    ensures Declares(items, e) && Groups(f, e.metric)
  {
    hide Declares, Groups;
    assert f.items[0] in f.items;
    e :| Declares(items, e) && Groups(f, e.metric) && e.item == f.items[0];
  }

  // ---- The panels and what is missing ----

  // The classes that the catalog feeds, or does not feed, in order.
  ghost function FedClasses(items: seq<Item>, classes: seq<PanelClass>, fed: bool): seq<PanelClass>
  {
    if classes == [] then []
    else (if Fed(items, classes[0]) == fed then [classes[0]] else []) + FedClasses(items, classes[1..], fed)
  }

  lemma {:induction false} FedSnoc(items: seq<Item>, classes: seq<PanelClass>, c: PanelClass, fed: bool)
    ensures FedClasses(items, classes + [c], fed) ==
            FedClasses(items, classes, fed) + if Fed(items, c) == fed then [c] else []
  {
    hide Fed;
    if classes == [] {
      assert classes + [c] == [c] && [c][1..] == [];
      assert FedClasses(items, [c], fed) == (if Fed(items, c) == fed then [c] else []) + FedClasses(items, [], fed);
    } else {
      var all, head := classes + [c], if Fed(items, classes[0]) == fed then [classes[0]] else [];
      assert all[0] == classes[0] && all[1..] == classes[1..] + [c];
      FedSnoc(items, classes[1..], c, fed);
      assert FedClasses(items, all, fed) == head + FedClasses(items, classes[1..] + [c], fed);
      assert FedClasses(items, classes, fed) == head + FedClasses(items, classes[1..], fed);
    }
  }

  lemma {:induction false} ClassesAreFed(
    items: seq<Item>, families: seq<Family>, classes: seq<PanelClass>, fed: bool)
    requires PlainCatalog(items) && FamiliesOf(Table(Entries(items)), families)
    ensures ClassesWith(families, classes, fed) == FedClasses(items, classes, fed)
  {
    hide PlainCatalog, FamiliesOf, Table, Entries, Fed, Gated, Gate, FedClasses;
    if classes == [] {
      assert FedClasses(items, classes, fed) == [] by { NoneFed(items, fed); }
    } else {
      var rest, last := classes[..|classes| - 1], classes[|classes| - 1];
      ClassesAreFed(items, families, rest, fed);
      PanelShownExactlyWhen(items, families, last);
      FedSnoc(items, rest, last, fed);
      assert classes == rest + [last];
    }
  }

  lemma {:induction false} NoneFed(items: seq<Item>, fed: bool)
    ensures FedClasses(items, [], fed) == []
  {
  }

  ghost function Feeding(families: seq<Family>, c: PanelClass): set<nat>
  {
    set i: nat | i < |families| && FeedsAt(families, c, i)
  }

  predicate FeedsAt(families: seq<Family>, c: PanelClass, i: nat)
    requires i < |families|
  {
    Feeds(c, families[i].typ, families[i].attributes)
  }

  lemma {:induction false} LastFeeds(families: seq<Family>, c: PanelClass)
    requires families != []
    ensures var n := |families| - 1;
            |Feeding(families, c)| ==
            |Feeding(families[..n], c)| + if Feeds(c, families[n].typ, families[n].attributes) then 1 else 0
  {
    hide Feeds;
    var n := |families| - 1;
    var rest := Feeding(families[..n], c);
    assert forall i: nat :: i < n ==> FeedsAt(families[..n], c, i) == FeedsAt(families, c, i);
    assert FeedsAt(families, c, n) <==> Feeds(c, families[n].typ, families[n].attributes);
    hide FeedsAt;
    if FeedsAt(families, c, n) {
      assert Feeding(families, c) == rest + {n} && n !in rest;
    } else {
      assert Feeding(families, c) == rest;
    }
  }

  lemma {:induction false} GatedCount(families: seq<Family>, c: PanelClass)
    requires forall f <- families :: f.capabilities == CapabilitiesFrom(f.typ, f.attributes)
    ensures |Gated(families, Gate(c))| == |Feeding(families, c)|
  {
    hide Feeds, CapabilitiesFrom, Gate;
    if families == [] {
      assert Feeding(families, c) == {};
    } else {
      hide Feeding;
      var rest, last := families[..|families| - 1], families[|families| - 1];
      assert families == rest + [last];
      GatedCount(rest, c);
      GateIsFeeds(c, last);
      LastFeeds(families, c);
    }
  }

  // The overview shows the classes that the catalog feeds, in order, and reports the others; what is held
  // against the limit is the number of families that feed each of the seven.
  lemma {:induction false} PanelsAndMissing(items: seq<Item>, families: seq<Family>)
    requires PlainCatalog(items) && FamiliesOf(Table(Entries(items)), families)
    ensures ClassesWith(families, OverviewClasses, true) == FedClasses(items, OverviewClasses, true)
    ensures ClassesWith(families, OverviewClasses, false) == FedClasses(items, OverviewClasses, false)
    ensures QueryCount(families, OverviewClasses) ==
            |Feeding(families, RequestRate)| + |Feeding(families, ErrorRatio)| + |Feeding(families, Percentile(0.50))|
            + |Feeding(families, Percentile(0.95))| + |Feeding(families, Percentile(0.99))|
            + |Feeding(families, InFlight)| + |Feeding(families, TopFailing)|
  {
    hide PlainCatalog, FamiliesOf, Table, Entries, Feeding, Gated, Gate, FedClasses, ClassesWith, ListsExactly;
    hide Declares, CapabilitiesFrom, QueryCount, CountOf, OverviewClasses, ValidMetricName, Groups;
    ClassesAreFed(items, families, OverviewClasses, true);
    ClassesAreFed(items, families, OverviewClasses, false);
    FamiliesPartition(items, families);
    AtMostThreeEach(families);
    CountsAgree(families);
    GatedCount(families, RequestRate);
    GatedCount(families, ErrorRatio);
    GatedCount(families, Percentile(0.50));
    GatedCount(families, Percentile(0.95));
    GatedCount(families, Percentile(0.99));
    GatedCount(families, InFlight);
    GatedCount(families, TopFailing);
  }
}
