/** dashboard/pipeline/plan.go, `aggregateDiagnostics`: sort, then drop repeats in place. */
module Diagnostics {
  import opened Ordering

  datatype Diagnostic = Diagnostic(code: string, targetID: string, field: string, message: string)

  // Code, target, field, message.
  predicate DiagnosticLeq(a: Diagnostic, b: Diagnostic)
  {
    if a.code != b.code then StringLeq(a.code, b.code)
    else if a.targetID != b.targetID then StringLeq(a.targetID, b.targetID)
    else if a.field != b.field then StringLeq(a.field, b.field)
    else StringLeq(a.message, b.message)
  }

  // Without the entries equal to the one before them.
  function Compacted<T(==)>(xs: seq<T>): (r: seq<T>)
    ensures |r| <= |xs| && (xs != [] ==> r != [] && r[|r| - 1] == xs[|xs| - 1])
  {
    if |xs| <= 1 then xs
    else
      var rest, last := Compacted(xs[..|xs| - 1]), xs[|xs| - 1];
      if rest[|rest| - 1] == last then rest else rest + [last]
  }

  lemma {:induction false} CompactedStep<T>(xs: seq<T>, i: nat)
    requires i < |xs|
    ensures var c := Compacted(xs[..i]);
            Compacted(xs[..i + 1]) == if c != [] && c[|c| - 1] == xs[i] then c else c + [xs[i]]
  {
    assert xs[..i + 1][..i] == xs[..i];
    if i == 0 { assert xs[..1] == [xs[0]]; }
  }

  // The compaction writes into the prefix it has already read.
  method CompactInPlace<T(==)>(a: array<T>) returns (n: nat)
    modifies a
    ensures n <= a.Length && a[..n] == Compacted(old(a[..]))
  {
    hide Compacted;
    n := 0;
    ghost var before := a[..];
    assert Compacted(before[..0]) == [] by { CompactedEmpty(before); }
    for i := 0 to a.Length
      invariant n <= i && a[..n] == Compacted(before[..i])
      invariant a[i..] == before[i..]
    {
      CompactedStep(before, i);
      assert a[i] == a[i..][0] == before[i];
      if n > 0 && a[n - 1] == a[i] { continue; }
      ghost var kept := a[..n];
      a[n] := a[i];
      n := n + 1;
      assert a[..n] == kept + [before[i]];
      assert a[i + 1..] == before[i + 1..];
    }
    assert before[..a.Length] == before;
  }

  lemma {:induction false} CompactedEmpty<T>(xs: seq<T>)
    ensures Compacted(xs[..0]) == []
  {
  }

  // The diagnostics of the catalog and of the four sub-plans, in one sorted list.
  method AggregateDiagnostics(lists: seq<seq<Diagnostic>>) returns (r: seq<Diagnostic>)
    ensures r == Compacted(SortBy(DiagnosticLeq, Joined(lists)))
  {
    hide SortBy, DiagnosticLeq;
    var all: seq<Diagnostic> := [];
    for i := 0 to |lists|
      invariant all == Joined(lists[..i])
    {
      assert lists[..i + 1][..i] == lists[..i];
      all := all + lists[i];
    }
    assert lists[..|lists|] == lists;
    var sorted := SortBy(DiagnosticLeq, all);
    var a := new Diagnostic[|sorted|](i requires 0 <= i < |sorted| => sorted[i]);
    assert a[..] == sorted;
    var n := CompactInPlace(a);
    return a[..n];
  }

  function Joined(lists: seq<seq<Diagnostic>>): seq<Diagnostic>
  {
    if lists == [] then [] else Joined(lists[..|lists| - 1]) + lists[|lists| - 1]
  }

  // ---- What is left ----

  lemma {:induction false} CompactedMembers<T>(xs: seq<T>)
    ensures forall x :: x in Compacted(xs) <==> x in xs
  {
    if |xs| > 1 {
      var rest, last := xs[..|xs| - 1], xs[|xs| - 1];
      CompactedMembers(rest);
      assert xs == rest + [last];
      assert forall x :: x in xs <==> x in rest || x == last;
    }
  }

  lemma {:induction false} CompactedOrder<T(!new)>(leq: (T, T) -> bool, xs: seq<T>)
    requires TotalPreorder(leq) && SortedBy(leq, xs) && NoTies(leq, multiset(xs))
    ensures SortedBy(leq, Compacted(xs)) && NoDup(Compacted(xs))
  {
    if |xs| <= 1 {
      OneIsOrdered(leq, xs);
    } else {
      hide SortedBy, NoDup;
      var rest, last := xs[..|xs| - 1], xs[|xs| - 1];
      PrefixOrder(leq, xs);
      CompactedOrder(leq, rest);
      CompactedMembers(rest);
      var c := Compacted(rest);
      if c[|c| - 1] != last { OrderSnoc(leq, c, last, multiset(xs)); }
    }
  }

  lemma {:induction false} OneIsOrdered<T(!new)>(leq: (T, T) -> bool, xs: seq<T>)
    requires |xs| <= 1
    ensures SortedBy(leq, xs) && NoDup(xs)
  {
  }

  lemma {:induction false} PrefixOrder<T(!new)>(leq: (T, T) -> bool, xs: seq<T>)
    requires SortedBy(leq, xs) && NoTies(leq, multiset(xs)) && xs != []
    ensures var rest, last := xs[..|xs| - 1], xs[|xs| - 1];
            && SortedBy(leq, rest) && NoTies(leq, multiset(rest)) && last in multiset(xs)
            && (forall x <- rest :: leq(x, last) && x in multiset(xs))
  {
    var rest, last := xs[..|xs| - 1], xs[|xs| - 1];
    assert xs == rest + [last];
    assert forall x :: x in multiset(rest) ==> x in multiset(xs);
  }

  lemma {:induction false} OrderSnoc<T(!new)>(leq: (T, T) -> bool, c: seq<T>, last: T, all: multiset<T>)
    requires SortedBy(leq, c) && NoDup(c) && c != [] && c[|c| - 1] != last
    requires NoTies(leq, all) && last in all && forall x <- c :: leq(x, last) && x in all
    ensures SortedBy(leq, c + [last]) && NoDup(c + [last])
  {
    if last in c { LastIsGreatest(leq, c, last, all); }
    assert last !in multiset(c);
  }

  // In a sorted list, a member that everything is below is the last one.
  lemma {:induction false} LastIsGreatest<T(!new)>(leq: (T, T) -> bool, c: seq<T>, last: T, all: multiset<T>)
    requires SortedBy(leq, c) && c != [] && last in c && leq(c[|c| - 1], last)
    requires NoTies(leq, all) && last in all && c[|c| - 1] in all
    ensures c[|c| - 1] == last
  {
    var i :| 0 <= i < |c| && c[i] == last;
    if i < |c| - 1 { assert leq(last, c[|c| - 1]); }
  }

  lemma {:induction false} DiagnosticOrder(xs: multiset<Diagnostic>)
    ensures TotalPreorder(DiagnosticLeq) && NoTies(DiagnosticLeq, xs)
  {
    hide StringLeq;
    forall a, b ensures DiagnosticLeq(a, b) || DiagnosticLeq(b, a) {
      StringLeqTotal(a.code, b.code);
      StringLeqTotal(a.targetID, b.targetID);
      StringLeqTotal(a.field, b.field);
      StringLeqTotal(a.message, b.message);
    }
    forall a, b, c | DiagnosticLeq(a, b) && DiagnosticLeq(b, c) ensures DiagnosticLeq(a, c) {
      LeqTransitive(a, b, c);
    }
    forall a, b | a in xs && b in xs && DiagnosticLeq(a, b) && DiagnosticLeq(b, a) ensures a == b {
      LeqAntisymmetric(a, b);
    }
  }

  lemma {:induction false} LeqAntisymmetric(a: Diagnostic, b: Diagnostic)
    requires DiagnosticLeq(a, b) && DiagnosticLeq(b, a)
    ensures a == b
  {
    hide StringLeq;
    if a.code != b.code { StringLeqAntisymmetric(a.code, b.code); }
    else if a.targetID != b.targetID { StringLeqAntisymmetric(a.targetID, b.targetID); }
    else if a.field != b.field { StringLeqAntisymmetric(a.field, b.field); }
    else if a.message != b.message { StringLeqAntisymmetric(a.message, b.message); }
  }

  lemma {:induction false} ChainLeq(x: string, y: string, z: string)
    requires (x == y || StringLeq(x, y)) && (y == z || StringLeq(y, z))
    ensures StringLeq(x, z) || x == z
    ensures x == z ==> x == y
  {
    if x != y && y != z { StringLeqTransitive(x, y, z); }
    if x == z && x != y { StringLeqAntisymmetric(x, y); }
  }

  lemma {:induction false} LeqTransitive(a: Diagnostic, b: Diagnostic, c: Diagnostic)
    requires DiagnosticLeq(a, b) && DiagnosticLeq(b, c)
    ensures DiagnosticLeq(a, c)
  {
    hide StringLeq;
    ChainLeq(a.code, b.code, c.code);
    if a.code == c.code {
      ChainLeq(a.targetID, b.targetID, c.targetID);
      if a.targetID == c.targetID {
        ChainLeq(a.field, b.field, c.field);
        if a.field == c.field { StringLeqTransitive(a.message, b.message, c.message); }
      }
    }
  }

  // The aggregate lists every diagnostic once, in order, and depends only on which there are.
  lemma {:induction false} AggregateIsSet(xs: seq<Diagnostic>, ys: seq<Diagnostic>)
    ensures var r := Compacted(SortBy(DiagnosticLeq, xs));
            && SortedBy(DiagnosticLeq, r) && NoDup(r) && (forall d :: d in r <==> d in xs)
            && (r == Compacted(SortBy(DiagnosticLeq, ys)) <==> ToSet(xs) == ToSet(ys))
  {
    hide SortBy, DiagnosticLeq, SortedBy, NoDup, NoTies, Compacted;
    AggregateLists(xs);
    AggregateLists(ys);
    var r, s := Compacted(SortBy(DiagnosticLeq, xs)), Compacted(SortBy(DiagnosticLeq, ys));
    forall d ensures (d in r <==> d in ToSet(xs)) && (d in s <==> d in ToSet(ys)) {}
    if ToSet(xs) == ToSet(ys) {
      assert ToSet(r) == ToSet(s);
      SameSetSameMultiset(r, s);
      DiagnosticOrder(multiset(r));
      SortedUnique(DiagnosticLeq, r, s);
    }
    if r == s { assert ToSet(xs) == ToSet(ys); }
  }

  lemma {:induction false} AggregateLists(xs: seq<Diagnostic>)
    ensures var r := Compacted(SortBy(DiagnosticLeq, xs));
            SortedBy(DiagnosticLeq, r) && NoDup(r) && forall d :: d in r <==> d in xs
  {
    hide SortBy, DiagnosticLeq, SortedBy, NoDup, NoTies, Compacted;
    var sorted := SortBy(DiagnosticLeq, xs);
    DiagnosticOrder(multiset(sorted));
    SortBySorted(DiagnosticLeq, xs);
    CompactedOrder(DiagnosticLeq, sorted);
    CompactedMembers(sorted);
    SortKeeps(xs, sorted);
    forall d ensures d in sorted <==> d in xs { assert d in multiset(sorted) <==> d in multiset(xs); }
  }
}
