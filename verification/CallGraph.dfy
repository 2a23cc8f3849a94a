/** The call graph of compiler/goanalyzer/functions.go: caller and callee lists. Walking the
    syntax and resolving a call are not modelled; a body is the list of what its calls resolve to. */
module CallGraph {
  import opened Ordering

  datatype Function = Function(id: string, callers: seq<string>, callees: seq<string>)

  // What resolveCall says of one call.
  datatype Call = Untracked | Unresolved(column: int) | Resolved(callee: string, column: int)

  datatype Record = Record(id: string, calls: seq<Call>)

  datatype Edge = Edge(caller: string, callee: string, column: int, resolved: bool)

  // ---- What a walk records ----

  function EdgesOf(caller: string, calls: seq<Call>): seq<Edge>
  {
    if calls == [] then []
    else EdgesOf(caller, calls[..|calls| - 1]) + EdgeOf(caller, calls[|calls| - 1])
  }

  function EdgeOf(caller: string, call: Call): seq<Edge>
  {
    match call
    case Untracked => []
    case Unresolved(column) => [Edge(caller, "", column, false)]
    case Resolved(callee, column) => [Edge(caller, callee, column, true)]
  }

  function Misses(calls: seq<Call>): nat
  {
    if calls == [] then 0 else Misses(calls[..|calls| - 1]) + if calls[|calls| - 1].Unresolved? then 1 else 0
  }

  function AllEdges(records: seq<Record>): seq<Edge>
  {
    if records == [] then []
    else var last := records[|records| - 1]; AllEdges(records[..|records| - 1]) + EdgesOf(last.id, last.calls)
  }

  predicate IsCall(e: Edge, caller: string, callee: string)
  {
    e.resolved && e.caller == caller && e.callee == callee
  }

  // A resolved call from one function to the other was recorded.
  ghost predicate Calls(edges: seq<Edge>, caller: string, callee: string)
  {
    exists e <- edges :: IsCall(e, caller, callee)
  }

  ghost predicate Knows(functions: seq<Function>, id: string)
  {
    exists f <- functions :: f.id == id
  }

  // The lists are exactly the recorded calls between known functions, seen from both ends, and
  // hold nothing twice.
  ghost predicate Linked(functions: seq<Function>, edges: seq<Edge>)
  {
    forall f <- functions ::
      && NoDup(f.callers) && NoDup(f.callees)
      && (forall id :: id in f.callees <==> Knows(functions, id) && Calls(edges, f.id, id))
      && (forall id :: id in f.callers <==> Knows(functions, id) && Calls(edges, id, f.id))
  }

  // ---- The analyzer ----

  class Analyzer {
    var functions: seq<Function>
    var functionIndex: map<string, nat>
    var records: seq<Record>
    var callEdges: seq<Edge>
    var unresolved: nat

    // The index finds exactly the functions, which stand where their records do.
    ghost predicate Valid()
      reads this
    {
      && |records| == |functions|
      && (forall i :: 0 <= i < |functions| ==>
            functions[i].id == records[i].id && functions[i].id in functionIndex && functionIndex[functions[i].id] == i)
      && (forall id <- functionIndex :: functionIndex[id] < |functions| && functions[functionIndex[id]].id == id)
    }

    constructor ()
      ensures Valid() && functions == [] && callEdges == [] && unresolved == 0 && records == []
    {
      functions, functionIndex, records, callEdges, unresolved := [], map[], [], [], 0;
    }

    method AddFunction(id: string, calls: seq<Call>) returns (added: bool)
      requires Valid()
      modifies `functions, `functionIndex, `records
      ensures Valid()
      ensures added == !old(Knows(functions, id))
      ensures added ==> functions == old(functions) + [Function(id, [], [])]
      ensures added ==> records == old(records) + [Record(id, calls)]
      ensures !added ==> functions == old(functions) && records == old(records)
    {
      if id in functionIndex {
        assert functions[functionIndex[id]] in functions;
        return false;
      }
      functionIndex := functionIndex[id := |records|];
      records := records + [Record(id, calls)];
      functions := functions + [Function(id, [], [])];
      return true;
    }

    method AddFunctionRelation(caller: string, callee: string)
      requires Valid()
      modifies `functions
      ensures Valid() && functions == Related(old(functions), caller, callee)
    {
      if caller !in functionIndex || callee !in functionIndex {
        NotKnown(caller, callee);
        return;
      }
      var from, to := functionIndex[caller], functionIndex[callee];
      RelatedAt(functions, from, to);
      functions := functions[from := functions[from].(callees := AppendUnique(functions[from].callees, callee))];
      functions := functions[to := functions[to].(callers := AppendUnique(functions[to].callers, caller))];
    }

    lemma {:induction false} NotKnown(caller: string, callee: string)
      requires Valid() && (caller !in functionIndex || callee !in functionIndex)
      ensures Related(functions, caller, callee) == functions
    {
      forall id | Knows(functions, id) ensures id in functionIndex {
        var f :| f in functions && f.id == id;
      }
    }

    // One call of a body.
    method CollectCall(caller: string, call: Call)
      requires Valid() && Linked(functions, callEdges)
      modifies `functions, `callEdges, `unresolved
      ensures Valid() && Linked(functions, callEdges) && SameIDs(old(functions), functions)
      ensures callEdges == old(callEdges) + EdgeOf(caller, call)
      ensures unresolved == old(unresolved) + if call.Unresolved? then 1 else 0
    {
      hide Linked, Related;
      match call
      case Untracked =>
      case Unresolved(column) =>
        UnresolvedLinks(functions, callEdges, Edge(caller, "", column, false));
        callEdges := callEdges + [Edge(caller, "", column, false)];
        unresolved := unresolved + 1;
      case Resolved(callee, column) =>
        RelatedLinks(functions, callEdges, Edge(caller, callee, column, true));
        RelatedSameIDs(functions, caller, callee);
        callEdges := callEdges + [Edge(caller, callee, column, true)];
        AddFunctionRelation(caller, callee);
    }

    // The calls of one body.
    method CollectBody(record: Record)
      requires Valid() && Linked(functions, callEdges)
      modifies `functions, `callEdges, `unresolved
      ensures Valid() && Linked(functions, callEdges) && SameIDs(old(functions), functions)
      ensures callEdges == old(callEdges) + EdgesOf(record.id, record.calls)
      ensures unresolved == old(unresolved) + Misses(record.calls)
    {
      hide Linked, EdgeOf, Valid;
      ghost var before, start := callEdges, unresolved;
      for i := 0 to |record.calls|
        invariant Valid() && Linked(functions, callEdges) && SameIDs(old(functions), functions)
        invariant callEdges == before + EdgesOf(record.id, record.calls[..i])
        invariant unresolved == start + Misses(record.calls[..i])
      {
        assert record.calls[..i + 1][..i] == record.calls[..i];
        CollectCall(record.id, record.calls[i]);
      }
      assert record.calls[..|record.calls|] == record.calls;
    }

    method CollectCalls()
      requires Valid() && Linked(functions, callEdges)
      modifies `functions, `callEdges, `unresolved
      ensures Valid() && Linked(functions, callEdges) && SameIDs(old(functions), functions)
      ensures callEdges == old(callEdges) + AllEdges(records)
    {
      hide Linked, EdgesOf, Valid, Misses;
      ghost var before := callEdges;
      for i := 0 to |records|
        invariant Valid() && Linked(functions, callEdges) && SameIDs(old(functions), functions)
        invariant callEdges == before + AllEdges(records[..i])
      {
        assert records[..i + 1][..i] == records[..i];
        CollectBody(records[i]);
      }
      assert records[..|records|] == records;
    }

    // Functions by ID, and each function's lists in order.
    method SortResults()
      requires Linked(functions, callEdges)
      modifies `functions
      ensures functions == SortedFunctions(old(functions)) && Linked(functions, callEdges)
    {
      hide Linked, SortBy, FunctionLeq;
      SortedLinks(functions, callEdges);
      ghost var sorted := SortBy(FunctionLeq, functions);
      functions := SortBy(FunctionLeq, functions);
      for index := 0 to |functions|
        invariant |functions| == |sorted|
        invariant forall j :: 0 <= j < index ==> functions[j] == SortLists(sorted[j])
        invariant forall j :: index <= j < |sorted| ==> functions[j] == sorted[j]
      {
        SortListsAt(index);
      }
    }

    method SortListsAt(index: nat)
      requires index < |functions|
      modifies `functions
      ensures functions == old(functions)[index := SortLists(old(functions[index]))]
    {
      functions := functions[index := functions[index].(callers := SortStrings(functions[index].callers))];
      functions := functions[index := functions[index].(callees := SortStrings(functions[index].callees))];
    }
  }

  // ---- One relation ----

  function Relate(f: Function, caller: string, callee: string): Function
  {
    f.(callees := if f.id == caller then AppendUnique(f.callees, callee) else f.callees,
       callers := if f.id == callee then AppendUnique(f.callers, caller) else f.callers)
  }

  // Both ends, or neither when one is not a known function.
  ghost function Related(functions: seq<Function>, caller: string, callee: string): (r: seq<Function>)
    ensures |r| == |functions|
  {
    if Knows(functions, caller) && Knows(functions, callee) then
      seq(|functions|, i requires 0 <= i < |functions| => Relate(functions[i], caller, callee))
    else functions
  }

  ghost predicate DistinctFunctions(functions: seq<Function>)
  {
    forall i, j :: 0 <= i < j < |functions| ==> functions[i].id != functions[j].id
  }

  lemma {:induction false} RelatedAt(functions: seq<Function>, from: nat, to: nat)
    requires from < |functions| && to < |functions| && DistinctFunctions(functions)
    ensures var caller, callee := functions[from].id, functions[to].id;
            var half := functions[from := functions[from].(callees := AppendUnique(functions[from].callees, callee))];
            Related(functions, caller, callee) ==
            half[to := half[to].(callers := AppendUnique(half[to].callers, caller))]
  {
    assert functions[from] in functions && functions[to] in functions;
  }

  ghost predicate SameIDs(before: seq<Function>, after: seq<Function>)
  {
    |before| == |after| && forall i :: 0 <= i < |before| ==> before[i].id == after[i].id
  }

  lemma {:induction false} RelatedSameIDs(functions: seq<Function>, caller: string, callee: string)
    ensures SameIDs(functions, Related(functions, caller, callee))
  {
  }

  lemma {:induction false} SameIDsKnow(before: seq<Function>, after: seq<Function>, id: string)
    requires SameIDs(before, after)
    ensures Knows(before, id) <==> Knows(after, id)
  {
    if Knows(before, id) {
      var i :| 0 <= i < |before| && before[i].id == id;
      assert after[i] in after;
    }
    if Knows(after, id) {
      var i :| 0 <= i < |after| && after[i].id == id;
      assert before[i] in before;
    }
  }

  lemma {:induction false} CallsMore(edges: seq<Edge>, e: Edge, caller: string, callee: string)
    ensures Calls(edges + [e], caller, callee) <==> Calls(edges, caller, callee) || IsCall(e, caller, callee)
  {
    var both := edges + [e];
    assert both[|edges|] == e;
    assert forall x :: x in both <==> x in edges || x == e;
  }

  lemma {:induction false} CallsOf(edges: seq<Edge>, e: Edge, f: string)
    ensures forall id :: Calls(edges + [e], f, id) <==> Calls(edges, f, id) || IsCall(e, f, id)
    ensures forall id :: Calls(edges + [e], id, f) <==> Calls(edges, id, f) || IsCall(e, id, f)
  {
    hide Calls;
    forall id ensures Calls(edges + [e], f, id) <==> Calls(edges, f, id) || IsCall(e, f, id) {
      CallsMore(edges, e, f, id);
    }
    forall id ensures Calls(edges + [e], id, f) <==> Calls(edges, id, f) || IsCall(e, id, f) {
      CallsMore(edges, e, id, f);
    }
  }

  lemma {:induction false} UnresolvedLinks(functions: seq<Function>, edges: seq<Edge>, e: Edge)
    requires Linked(functions, edges) && !e.resolved
    ensures Linked(functions, edges + [e])
  {
    hide Calls, Knows, NoDup;
    forall f | f in functions
      ensures forall id :: Calls(edges + [e], f.id, id) == Calls(edges, f.id, id)
      ensures forall id :: Calls(edges + [e], id, f.id) == Calls(edges, id, f.id)
    {
      CallsOf(edges, e, f.id);
    }
  }

  lemma {:induction false} RelatedLinks(functions: seq<Function>, edges: seq<Edge>, e: Edge)
    requires Linked(functions, edges) && e.resolved
    ensures Linked(Related(functions, e.caller, e.callee), edges + [e])
  {
    hide Calls, Knows, NoDup, AppendUnique;
    var after := Related(functions, e.caller, e.callee);
    RelatedSameIDs(functions, e.caller, e.callee);
    forall g | g in after
      ensures NoDup(g.callers) && NoDup(g.callees)
      ensures forall id :: id in g.callees <==> Knows(after, id) && Calls(edges + [e], g.id, id)
      ensures forall id :: id in g.callers <==> Knows(after, id) && Calls(edges + [e], id, g.id)
    {
      var i :| 0 <= i < |after| && after[i] == g;
      assert functions[i] in functions;
      MemberLinks(functions, edges, e, functions[i]);
      if !(Knows(functions, e.caller) && Knows(functions, e.callee)) { UnknownEnd(functions, edges, e, functions[i]); }
      forall id ensures Knows(after, id) == Knows(functions, id) { SameIDsKnow(functions, after, id); }
    }
  }

  // One function's lists after the relation, when both ends are known.
  lemma {:induction false} MemberLinks(functions: seq<Function>, edges: seq<Edge>, e: Edge, f: Function)
    requires Linked(functions, edges) && e.resolved && f in functions
    ensures var g := Relate(f, e.caller, e.callee);
            && NoDup(g.callers) && NoDup(g.callees) && g.id == f.id
            && (Knows(functions, e.caller) && Knows(functions, e.callee) ==>
                  && (forall id :: id in g.callees <==> Knows(functions, id) && Calls(edges + [e], f.id, id))
                  && (forall id :: id in g.callers <==> Knows(functions, id) && Calls(edges + [e], id, f.id)))
  {
    hide Calls, Knows;
    AppendUniqueSet(f.callees, e.callee);
    AppendUniqueSet(f.callers, e.caller);
    CallsOf(edges, e, f.id);
  }

  lemma {:induction false} UnknownEnd(functions: seq<Function>, edges: seq<Edge>, e: Edge, f: Function)
    requires Linked(functions, edges) && e.resolved && f in functions
    requires !(Knows(functions, e.caller) && Knows(functions, e.callee))
    ensures NoDup(f.callers) && NoDup(f.callees)
    ensures forall id :: id in f.callees <==> Knows(functions, id) && Calls(edges + [e], f.id, id)
    ensures forall id :: id in f.callers <==> Knows(functions, id) && Calls(edges + [e], id, f.id)
  {
    hide Calls, NoDup;
    assert Knows(functions, f.id);
    CallsOf(edges, e, f.id);
  }

  // ---- The whole analysis ----

  // The first record of each ID.
  function Kept(records: seq<Record>): seq<Record>
  {
    if records == [] then []
    else
      var rest, last := Kept(records[..|records| - 1]), records[|records| - 1];
      if exists r <- rest :: r.id == last.id then rest else rest + [last]
  }

  ghost predicate Bare(functions: seq<Function>)
  {
    forall f <- functions :: f.callers == [] && f.callees == []
  }

  lemma {:induction false} BareIsLinked(functions: seq<Function>)
    requires Bare(functions)
    ensures Linked(functions, [])
  {
  }

  lemma {:induction false} KnownRecord(functions: seq<Function>, records: seq<Record>, id: string)
    requires |records| == |functions| && forall i :: 0 <= i < |functions| ==> functions[i].id == records[i].id
    ensures Knows(functions, id) <==> exists r <- records :: r.id == id
  {
    if Knows(functions, id) {
      var i :| 0 <= i < |functions| && functions[i].id == id;
      assert records[i] in records;
    }
    if exists r <- records :: r.id == id {
      var i :| 0 <= i < |records| && records[i].id == id;
      assert functions[i] in functions;
    }
  }

  // What an analysis of these records returns.
  ghost predicate Analysis(records: seq<Record>, functions: seq<Function>, edges: seq<Edge>)
  {
    && Linked(functions, edges) && Tidy(functions) && edges == AllEdges(Kept(records))
    && (forall id :: Knows(functions, id) <==> exists r <- Kept(records) :: r.id == id)
  }

  method Analyze(records: seq<Record>) returns (functions: seq<Function>, edges: seq<Edge>)
    ensures Analysis(records, functions, edges)
  {
    hide Linked, Calls, SortedFunctions, AllEdges, Tidy;
    var analyzer := new Analyzer();
    for i := 0 to |records|
      invariant fresh(analyzer) && analyzer.Valid() && Bare(analyzer.functions) && analyzer.callEdges == []
      invariant analyzer.records == Kept(records[..i])
    {
      assert records[..i + 1][..i] == records[..i];
      KnownRecord(analyzer.functions, analyzer.records, records[i].id);
      var _ := analyzer.AddFunction(records[i].id, records[i].calls);
    }
    assert records[..|records|] == records;
    BareIsLinked(analyzer.functions);
    analyzer.CollectCalls();
    forall id ensures Knows(analyzer.functions, id) <==> exists r <- Kept(records) :: r.id == id {
      KnownRecord(analyzer.functions, analyzer.records, id);
      SortedKnow(analyzer.functions, id);
    }
    forall id ensures Knows(SortedFunctions(analyzer.functions), id) <==> Knows(analyzer.functions, id) {
      SortedKnow(analyzer.functions, id);
    }
    SortedIsTidy(analyzer.functions);
    analyzer.SortResults();
    return analyzer.functions, analyzer.callEdges;
  }

  // ---- Both ends agree ----

  // A function is in another's callee list exactly when that one is in its caller list, exactly
  // when a resolved call was recorded.
  lemma {:induction false} ListsAreInverse(functions: seq<Function>, edges: seq<Edge>, f: Function, g: Function)
    requires Linked(functions, edges) && f in functions && g in functions
    ensures g.id in f.callees <==> f.id in g.callers
    ensures g.id in f.callees <==> Calls(edges, f.id, g.id)
  {
    hide Calls, NoDup;
    assert Knows(functions, f.id) && Knows(functions, g.id);
  }

  // ---- Sorting ----

  predicate FunctionLeq(a: Function, b: Function) { StringLeq(a.id, b.id) }

  function SortLists(f: Function): Function
  {
    f.(callers := SortStrings(f.callers), callees := SortStrings(f.callees))
  }

  function SortedFunctions(functions: seq<Function>): (r: seq<Function>)
    ensures |r| == |functions|
  {
    var sorted := SortBy(FunctionLeq, functions);
    seq(|sorted|, i requires 0 <= i < |sorted| => SortLists(sorted[i]))
  }

  lemma {:induction false} SortedMembers(functions: seq<Function>)
    ensures forall g :: g in SortedFunctions(functions) <==> exists f <- functions :: g == SortLists(f)
  {
    hide SortLists, FunctionLeq;
    var sorted := SortBy(FunctionLeq, functions);
    forall f ensures f in sorted <==> f in functions { assert f in multiset(sorted) <==> f in multiset(functions); }
    forall g ensures g in SortedFunctions(functions) <==> exists f <- functions :: g == SortLists(f) {
      if g in SortedFunctions(functions) {
        var i :| 0 <= i < |sorted| && SortedFunctions(functions)[i] == g;
        assert sorted[i] in functions && g == SortLists(sorted[i]);
      }
      if exists f <- functions :: g == SortLists(f) {
        var f :| f in functions && g == SortLists(f);
        var i :| 0 <= i < |sorted| && sorted[i] == f;
        assert SortedFunctions(functions)[i] == g;
      }
    }
  }

  lemma {:induction false} SortedKnow(functions: seq<Function>, id: string)
    ensures Knows(SortedFunctions(functions), id) <==> Knows(functions, id)
  {
    hide SortedFunctions;
    SortedMembers(functions);
    if Knows(functions, id) {
      var f :| f in functions && f.id == id;
      assert SortLists(f) in SortedFunctions(functions) && SortLists(f).id == id;
    }
  }

  lemma {:induction false} SortedLinks(functions: seq<Function>, edges: seq<Edge>)
    requires Linked(functions, edges)
    ensures Linked(SortedFunctions(functions), edges)
  {
    hide SortedFunctions, Calls, NoDup, Knows;
    SortedMembers(functions);
    forall g | g in SortedFunctions(functions)
      ensures NoDup(g.callers) && NoDup(g.callees)
      ensures forall id :: id in g.callees <==> Knows(SortedFunctions(functions), id) && Calls(edges, g.id, id)
      ensures forall id :: id in g.callers <==> Knows(SortedFunctions(functions), id) && Calls(edges, id, g.id)
    {
      var f :| f in functions && g == SortLists(f);
      SortKeeps(f.callers, g.callers);
      SortKeeps(f.callees, g.callees);
      SameElements(f.callers, g.callers);
      SameElements(f.callees, g.callees);
      forall id { SortedKnow(functions, id); }
    }
  }

  lemma {:induction false} SameElements(xs: seq<string>, ys: seq<string>)
    requires ToSet(xs) == ToSet(ys)
    ensures forall x :: x in xs <==> x in ys
  {
    forall x ensures x in xs <==> x in ys { assert x in ToSet(xs) <==> x in ToSet(ys); }
  }

  // Functions by ID, no two alike, and their lists in order.
  ghost predicate Tidy(functions: seq<Function>)
  {
    && DistinctFunctions(functions) && SortedBy(FunctionLeq, functions)
    && forall f <- functions :: SortedBy(StringLeq, f.callers) && SortedBy(StringLeq, f.callees)
  }

  lemma {:induction false} FunctionOrder(functions: seq<Function>)
    requires DistinctFunctions(functions)
    ensures TotalPreorder(FunctionLeq)
    ensures NoTies(FunctionLeq, multiset(functions))
  {
    forall a, b ensures FunctionLeq(a, b) || FunctionLeq(b, a) { StringLeqTotal(a.id, b.id); }
    forall a, b, c | FunctionLeq(a, b) && FunctionLeq(b, c) ensures FunctionLeq(a, c) {
      StringLeqTransitive(a.id, b.id, c.id);
    }
    forall a, b | a in multiset(functions) && b in multiset(functions) && FunctionLeq(a, b) && FunctionLeq(b, a)
      ensures a == b
    {
      StringLeqAntisymmetric(a.id, b.id);
      var i :| 0 <= i < |functions| && functions[i] == a;
      var j :| 0 <= j < |functions| && functions[j] == b;
    }
  }

  function IDOf(f: Function): string { f.id }

  lemma {:induction false} SortedDistinct(functions: seq<Function>)
    requires DistinctFunctions(functions)
    ensures DistinctFunctions(SortBy(FunctionLeq, functions))
  {
    hide SortBy;
    PermutedDistinct(IDOf, functions, SortBy(FunctionLeq, functions));
  }

  lemma {:induction false} SortedIsTidy(functions: seq<Function>)
    requires DistinctFunctions(functions)
    ensures Tidy(SortedFunctions(functions))
  {
    hide SortBy, SortStrings, NoTies, TotalPreorder;
    var sorted, result := SortBy(FunctionLeq, functions), SortedFunctions(functions);
    SortedDistinct(functions);
    FunctionOrder(functions);
    SortBySorted(FunctionLeq, functions);
    forall i | 0 <= i < |result|
      ensures result[i].id == sorted[i].id
      ensures SortedBy(StringLeq, result[i].callers) && SortedBy(StringLeq, result[i].callees)
    {
      SortStringsCanonical(sorted[i].callers, sorted[i].callers);
      SortStringsCanonical(sorted[i].callees, sorted[i].callees);
    }
  }

  // ---- The result does not depend on the order of the walk ----

  lemma {:induction false} SameList(xs: seq<string>, ys: seq<string>)
    requires NoDup(xs) && NoDup(ys) && SortedBy(StringLeq, xs) && SortedBy(StringLeq, ys)
    requires forall x :: x in xs <==> x in ys
    ensures xs == ys
  {
    hide NoDup, SortedBy;
    assert ToSet(xs) == ToSet(ys);
    SameSetSameMultiset(xs, ys);
    StringOrder(multiset(xs));
    SortedUnique(StringLeq, xs, ys);
  }

  lemma {:induction false} SameFunction(
    functions: seq<Function>, edges: seq<Edge>, others: seq<Function>, otherEdges: seq<Edge>, f: Function,
    g: Function)
    requires Linked(functions, edges) && Linked(others, otherEdges) && Tidy(functions) && Tidy(others)
    requires f in functions && g in others && f.id == g.id
    requires forall id :: Knows(functions, id) <==> Knows(others, id)
    requires forall a, b :: Calls(edges, a, b) <==> Calls(otherEdges, a, b)
    ensures f == g
  {
    hide Knows, Calls, NoDup, SortedBy, DistinctFunctions;
    SameList(f.callees, g.callees);
    SameList(f.callers, g.callers);
  }

  lemma {:induction false} DistinctNoDup(functions: seq<Function>)
    requires DistinctFunctions(functions)
    ensures NoDup(functions)
  {
    NoDupMeans(functions);
  }

  // Two analyses with the same functions and the same resolved calls end with the same list.
  lemma {:induction false} SameCallsSameResult(
    functions: seq<Function>, edges: seq<Edge>, others: seq<Function>, otherEdges: seq<Edge>)
    requires Linked(functions, edges) && Linked(others, otherEdges) && Tidy(functions) && Tidy(others)
    requires forall id :: Knows(functions, id) <==> Knows(others, id)
    requires forall a, b :: Calls(edges, a, b) <==> Calls(otherEdges, a, b)
    ensures functions == others
  {
    hide Linked, Calls, Knows, NoDup, FunctionLeq, SortedBy;
    AllIn(functions, edges, others, otherEdges);
    AllIn(others, otherEdges, functions, edges);
    assert ToSet(functions) == ToSet(others);
    DistinctNoDup(functions);
    DistinctNoDup(others);
    SameSetSameMultiset(functions, others);
    FunctionOrder(functions);
    SortedUnique(FunctionLeq, functions, others);
  }

  lemma {:induction false} AllIn(
    functions: seq<Function>, edges: seq<Edge>, others: seq<Function>, otherEdges: seq<Edge>)
    requires Linked(functions, edges) && Linked(others, otherEdges) && Tidy(functions) && Tidy(others)
    requires forall id :: Knows(functions, id) <==> Knows(others, id)
    requires forall a, b :: Calls(edges, a, b) <==> Calls(otherEdges, a, b)
    ensures forall f <- functions :: f in others
  {
    hide Linked, Calls, Tidy;
    forall f | f in functions ensures f in others {
      assert Knows(functions, f.id);
      assert Knows(others, f.id);
      var g :| g in others && g.id == f.id;
      SameFunction(functions, edges, others, otherEdges, f, g);
    }
  }

  ghost predicate DistinctRecords(records: seq<Record>)
  {
    forall i, j :: 0 <= i < j < |records| ==> records[i].id != records[j].id
  }

  lemma {:induction false} AllKept(records: seq<Record>)
    requires DistinctRecords(records)
    ensures Kept(records) == records
  {
    if records != [] {
      var rest := records[..|records| - 1];
      AllKept(rest);
      assert records == rest + [records[|records| - 1]];
    }
  }

  lemma {:induction false} EdgesCall(caller: string, calls: seq<Call>, a: string, b: string)
    ensures Calls(EdgesOf(caller, calls), a, b) <==>
              a == caller && exists c <- calls :: c.Resolved? && c.callee == b
  {
    if calls != [] {
      var rest, last := calls[..|calls| - 1], calls[|calls| - 1];
      EdgesCall(caller, rest, a, b);
      assert calls == rest + [last];
      EitherCalls(EdgesOf(caller, rest), EdgeOf(caller, last), a, b);
      OneCall(caller, last, a, b);
    }
  }

  lemma {:induction false} OneCall(caller: string, call: Call, a: string, b: string)
    ensures Calls(EdgeOf(caller, call), a, b) <==> a == caller && call.Resolved? && call.callee == b
  {
    if call.Resolved? {
      assert EdgeOf(caller, call) == [Edge(caller, call.callee, call.column, true)];
      assert EdgeOf(caller, call)[0] in EdgeOf(caller, call);
    }
  }

  lemma {:induction false} EitherCalls(xs: seq<Edge>, ys: seq<Edge>, a: string, b: string)
    ensures Calls(xs + ys, a, b) <==> Calls(xs, a, b) || Calls(ys, a, b)
  {
    assert forall e :: e in xs + ys <==> e in xs || e in ys;
  }

  // The record of `a` resolves a call to `b`.
  ghost predicate RecordCalls(records: seq<Record>, a: string, b: string)
  {
    exists r <- records :: r.id == a && exists c <- r.calls :: c.Resolved? && c.callee == b
  }

  lemma {:induction false} AllEdgesCall(records: seq<Record>, a: string, b: string)
    ensures Calls(AllEdges(records), a, b) <==> RecordCalls(records, a, b)
  {
    hide Calls;
    if records == [] {
      NoCalls(a, b);
    } else {
      var rest, last := records[..|records| - 1], records[|records| - 1];
      AllEdgesCall(rest, a, b);
      EdgesCall(last.id, last.calls, a, b);
      EitherCalls(AllEdges(rest), EdgesOf(last.id, last.calls), a, b);
      assert records == rest + [last];
    }
  }

  lemma {:induction false} NoCalls(a: string, b: string)
    ensures !Calls([], a, b)
  {
  }

  // Walking the functions in another order gives the same result.
  lemma {:induction false} WalkOrderDoesNotMatter(
    records: seq<Record>, functions: seq<Function>, edges: seq<Edge>, permuted: seq<Record>, others: seq<Function>,
    otherEdges: seq<Edge>)
    requires multiset(records) == multiset(permuted) && DistinctRecords(records)
    requires Analysis(records, functions, edges) && Analysis(permuted, others, otherEdges)
    ensures functions == others
  {
    hide Linked, Tidy, Calls, RecordCalls, Kept, AllEdges;
    RecordsDistinct(records, permuted);
    AllKept(records);
    AllKept(permuted);
    assert forall r :: r in records <==> r in permuted by {
      forall r ensures r in records <==> r in permuted {
        assert r in multiset(records) <==> r in multiset(permuted);
      }
    }
    forall a, b ensures Calls(edges, a, b) <==> Calls(otherEdges, a, b) {
      AllEdgesCall(records, a, b);
      AllEdgesCall(permuted, a, b);
      SameMembersCall(records, permuted, a, b);
    }
    SameCallsSameResult(functions, edges, others, otherEdges);
  }

  lemma {:induction false} SameMembersCall(records: seq<Record>, permuted: seq<Record>, a: string, b: string)
    requires forall r :: r in records <==> r in permuted
    ensures RecordCalls(records, a, b) <==> RecordCalls(permuted, a, b)
  {
  }

  function RecordID(r: Record): string { r.id }

  lemma {:induction false} RecordsDistinct(records: seq<Record>, permuted: seq<Record>)
    requires multiset(records) == multiset(permuted) && DistinctRecords(records)
    ensures DistinctRecords(permuted)
  {
    PermutedDistinct(RecordID, records, permuted);
  }

  // ---- What an analysis says ----

  // The first record with its ID: a later one is refused.
  ghost predicate FirstRecord(records: seq<Record>, i: nat)
  {
    i < |records| && forall j :: 0 <= j < i ==> records[j].id != records[i].id
  }

  ghost predicate IsFirst(records: seq<Record>, i: nat, r: Record)
  {
    i < |records| && FirstRecord(records, i) && records[i] == r
  }

  ghost predicate First(records: seq<Record>, r: Record) { exists i: nat :: IsFirst(records, i, r) }

  lemma {:induction false} FirstIsRecord(records: seq<Record>, r: Record)
    requires First(records, r)
    ensures r in records
  {
  }

  lemma {:induction false} KeptAreFirst(records: seq<Record>, r: Record)
    ensures r in Kept(records) <==> First(records, r)
  {
    if records != [] {
      var n := |records| - 1;
      var rest := records[..n];
      KeptAreFirst(rest, r);
      KeptKnows(rest, records[n].id);
      FirstOfLonger(records, r);
      hide IsFirst;
      assert r in Kept(records) <==>
          r in Kept(rest) || (r == records[n] && !exists x <- Kept(rest) :: x.id == records[n].id);
    }
  }

  lemma {:induction false} FirstsBelow(records: seq<Record>, i: nat)
    requires i < |records|
    ensures var n := |records| - 1;
            if i < n then records[..n][i] == records[i] && (FirstRecord(records[..n], i) <==> FirstRecord(records, i))
            else FirstRecord(records, n) <==> !exists x <- records[..n] :: x.id == records[n].id
  {
    var n := |records| - 1;
    var rest := records[..n];
    assert forall j :: 0 <= j < n ==> rest[j] == records[j] && rest[j] in rest;
  }

  lemma {:induction false} FirstOfLonger(records: seq<Record>, r: Record)
    requires records != []
    ensures var n := |records| - 1;
            (exists i: nat :: IsFirst(records, i, r)) <==>
              || (exists i: nat :: IsFirst(records[..n], i, r))
              || (r == records[n] && !exists x <- records[..n] :: x.id == records[n].id)
  {
    hide FirstRecord;
    var n := |records| - 1;
    forall i: nat | i < |records| { FirstsBelow(records, i); }
    if i: nat :| IsFirst(records[..n], i, r) { assert IsFirst(records, i, r); }
    if i: nat :| IsFirst(records, i, r) && i < n { assert IsFirst(records[..n], i, r); }
    if r == records[n] && !exists x <- records[..n] :: x.id == records[n].id { assert IsFirst(records, n, r); }
  }

  lemma {:induction false} KeptKnows(records: seq<Record>, id: string)
    ensures (exists r <- Kept(records) :: r.id == id) <==> exists r <- records :: r.id == id
  {
    if records != [] {
      var rest, last := records[..|records| - 1], records[|records| - 1];
      KeptKnows(rest, id);
      KeptKnows(rest, last.id);
      assert records == rest + [last];
      assert forall r :: r in records <==> r in rest || r == last;
    }
  }

  // A call that is followed leaves an edge, resolved or not.
  predicate LeavesEdge(caller: string, c: Call, e: Edge)
  {
    match c
    case Untracked => false
    case Unresolved(column) => e == Edge(caller, "", column, false)
    case Resolved(callee, column) => e == Edge(caller, callee, column, true)
  }

  lemma {:induction false} OneEdge(caller: string, c: Call, e: Edge)
    ensures e in EdgeOf(caller, c) <==> LeavesEdge(caller, c, e)
  {
  }

  lemma {:induction false} EdgesAre(caller: string, calls: seq<Call>, e: Edge)
    ensures e in EdgesOf(caller, calls) <==> exists c <- calls :: LeavesEdge(caller, c, e)
  {
    if calls != [] {
      var rest, last := calls[..|calls| - 1], calls[|calls| - 1];
      EdgesAre(caller, rest, e);
      OneEdge(caller, last, e);
      assert calls == rest + [last];
      assert forall c :: c in calls <==> c in rest || c == last;
    }
  }

  ghost predicate RecordLeaves(r: Record, e: Edge) { exists c <- r.calls :: LeavesEdge(r.id, c, e) }

  lemma {:induction false} RecordEdges(r: Record, e: Edge)
    ensures RecordLeaves(r, e) <==> e in EdgesOf(r.id, r.calls)
  {
    EdgesAre(r.id, r.calls, e);
  }

  lemma {:induction false} AllEdgesAre(records: seq<Record>, e: Edge)
    ensures e in AllEdges(records) <==> exists r <- records :: RecordLeaves(r, e)
  {
    hide LeavesEdge, EdgesOf, RecordLeaves;
    if records != [] {
      var rest, last := records[..|records| - 1], records[|records| - 1];
      AllEdgesAre(rest, e);
      assert RecordLeaves(last, e) <==> e in EdgesOf(last.id, last.calls) by { RecordEdges(last, e); }
      assert records == rest + [last];
      assert forall r :: r in records <==> r in rest || r == last;
    }
  }

  ghost predicate FirstLeaves(records: seq<Record>, e: Edge)
  {
    exists r <- records :: First(records, r) && RecordLeaves(r, e)
  }

  // The first record of `a` resolves a call to `b`.
  ghost predicate FirstCalls(records: seq<Record>, a: string, b: string)
  {
    exists r <- records :: First(records, r) && r.id == a && exists c <- r.calls :: c.Resolved? && c.callee == b
  }

  // An analysis gives one function for each ID, the edges of the first record with it, and as its callees and
  // callers the functions that the first records call.
  lemma {:induction false} AnalysisMeans(records: seq<Record>, functions: seq<Function>, edges: seq<Edge>)
    requires Analysis(records, functions, edges)
    ensures forall id :: Knows(functions, id) <==> exists r <- records :: r.id == id
    ensures forall e :: e in edges <==> FirstLeaves(records, e)
    ensures forall f <- functions, id ::
              && (id in f.callees <==> Knows(functions, id) && FirstCalls(records, f.id, id))
              && (id in f.callers <==> Knows(functions, id) && FirstCalls(records, id, f.id))
  {
    hide Tidy, Calls, FirstLeaves, FirstCalls, Knows, NoDup, Kept;
    forall id ensures Knows(functions, id) <==> exists r <- records :: r.id == id { KeptKnows(records, id); }
    forall e ensures e in edges <==> FirstLeaves(records, e) {
      AllEdgesAre(Kept(records), e);
      KeptLeave(records, e);
    }
    forall a, b ensures Calls(edges, a, b) <==> FirstCalls(records, a, b) {
      AllEdgesCall(Kept(records), a, b);
      KeptCall(records, a, b);
    }
  }

  lemma {:induction false} KeptLeave(records: seq<Record>, e: Edge)
    ensures (exists r <- Kept(records) :: RecordLeaves(r, e)) <==> FirstLeaves(records, e)
  {
    hide Kept, RecordLeaves, First;
    forall r { KeptAreFirst(records, r); }
    forall r | First(records, r) ensures r in records { FirstIsRecord(records, r); }
  }

  lemma {:induction false} KeptCall(records: seq<Record>, a: string, b: string)
    ensures RecordCalls(Kept(records), a, b) <==> FirstCalls(records, a, b)
  {
    hide Kept, First;
    forall r { KeptAreFirst(records, r); }
    forall r | First(records, r) ensures r in records { FirstIsRecord(records, r); }
  }
}
