/** dashboard/ids.go: collision-free IDs from a hash, and the letters of a panel's queries. */
module Identifiers {
  import opened Wrappers
  import opened Ordering

  // ---- resolveIDs ----

  ghost predicate Leaves(hash: (string, nat) -> int, key: string, used: set<int>)
  {
    exists attempt: nat :: hash(key, attempt) !in used
  }

  // Every key's hashes leave every set of fewer than `n` IDs, sooner or later.
  ghost predicate Escapes(hash: (string, nat) -> int, n: nat)
  {
    forall key, used | |used| < n :: Leaves(hash, key, used)
  }

  ghost predicate HashOf(hash: (string, nat) -> int, key: string, id: int)
  {
    exists attempt: nat :: id == hash(key, attempt)
  }

  ghost predicate FirstFree(hash: (string, nat) -> int, key: string, used: set<int>, attempt: nat)
  {
    hash(key, attempt) !in used && forall m: nat | m < attempt :: hash(key, m) in used
  }

  lemma {:induction false} FirstFreeExists(hash: (string, nat) -> int, key: string, used: set<int>)
    requires Leaves(hash, key, used)
    ensures exists first :: FirstFree(hash, key, used, first)
  {
    var attempt: nat :| hash(key, attempt) !in used;
    var first := 0;
    while hash(key, first) in used
      invariant first <= attempt && forall m: nat | m < first :: hash(key, m) in used
      decreases attempt - first
    {
      first := first + 1;
    }
    assert FirstFree(hash, key, used, first);
  }

  lemma {:induction false} FirstFreeUnique(hash: (string, nat) -> int, key: string, used: set<int>, a: nat, b: nat)
    requires FirstFree(hash, key, used, a) && FirstFree(hash, key, used, b)
    ensures a == b
  {
  }

  // The ID a key takes: the first of its hashes that is free.
  ghost function FreeID(hash: (string, nat) -> int, key: string, used: set<int>): (id: int)
    requires Leaves(hash, key, used)
    ensures id !in used && HashOf(hash, key, id)
  {
    FirstFreeExists(hash, key, used);
    var first :| FirstFree(hash, key, used, first);
    hash(key, first)
  }

  lemma {:induction false} FreeIDIs(hash: (string, nat) -> int, key: string, used: set<int>, first: nat)
    requires FirstFree(hash, key, used, first)
    ensures Leaves(hash, key, used) && FreeID(hash, key, used) == hash(key, first)
  {
    assert hash(key, first) !in used;
    var other :| FirstFree(hash, key, used, other) && FreeID(hash, key, used) == hash(key, other);
    FirstFreeUnique(hash, key, used, other, first);
  }

  datatype Allocation = Allocation(used: set<int>, byKey: map<string, int>)

  // The keys in order, each taking an ID.
  ghost function Allocate(hash: (string, nat) -> int, keys: seq<string>): (r: Allocation)
    requires Escapes(hash, |keys|)
    ensures |r.used| <= |keys|
  {
    if keys == [] then Allocation({}, map[])
    else
      var before := Allocate(hash, keys[..|keys| - 1]);
      var key := keys[|keys| - 1];
      assert Leaves(hash, key, before.used);
      var id := FreeID(hash, key, before.used);
      Allocation(before.used + {id}, before.byKey[key := id])
  }

  // Keys have IDs that are in use, and different keys different ones.
  lemma {:induction false} AllocationInjective(hash: (string, nat) -> int, keys: seq<string>)
    requires Escapes(hash, |keys|)
    ensures var end := Allocate(hash, keys);
            && (forall key :: key in end.byKey <==> key in keys)
            && (forall key <- end.byKey :: end.byKey[key] in end.used)
            && (forall k, l :: k in end.byKey && l in end.byKey && k != l ==> end.byKey[k] != end.byKey[l])
  {
    hide FreeID;
    if keys != [] {
      var rest, key := keys[..|keys| - 1], keys[|keys| - 1];
      assert keys == rest + [key];
      AllocationInjective(hash, rest);
      assert forall k :: k in keys <==> k in rest || k == key;
    }
  }

  lemma {:induction false} AllocationHashes(hash: (string, nat) -> int, keys: seq<string>, key: string)
    requires Escapes(hash, |keys|) && key in Allocate(hash, keys).byKey
    ensures HashOf(hash, key, Allocate(hash, keys).byKey[key])
  {
    if keys != [] && key != keys[|keys| - 1] { AllocationHashes(hash, keys[..|keys| - 1], key); }
  }

  // The IDs of the keys, in the order of the keys, from the allocation of the sorted keys.
  ghost function Resolved(hash: (string, nat) -> int, keys: seq<string>): (ids: seq<int>)
    requires Escapes(hash, |keys|)
    ensures |ids| == |keys|
  {
    var byKey := Allocate(hash, SortStrings(keys)).byKey;
    seq(|keys|, i requires 0 <= i < |keys| => if keys[i] in byKey then byKey[keys[i]] else 0)
  }

  lemma {:induction false} KeyIsSorted(keys: seq<string>, i: nat)
    requires i < |keys|
    ensures keys[i] in SortStrings(keys)
  {
    assert keys[i] in multiset(keys);
    assert keys[i] in multiset(SortStrings(keys));
  }

  lemma {:induction false} AllocateSnoc(hash: (string, nat) -> int, sorted: seq<string>, i: nat)
    requires i < |sorted| && Escapes(hash, |sorted|)
    ensures Escapes(hash, i) && Escapes(hash, i + 1)
    ensures var before := Allocate(hash, sorted[..i]);
            && |before.used| < |sorted| && Leaves(hash, sorted[i], before.used)
            && Allocate(hash, sorted[..i + 1]) ==
                 Allocation(before.used + {FreeID(hash, sorted[i], before.used)},
                            before.byKey[sorted[i] := FreeID(hash, sorted[i], before.used)])
  {
    assert sorted[..i + 1][..i] == sorted[..i];
  }

  method ResolveIDs(keys: seq<string>, hash: (string, nat) -> int) returns (ids: seq<int>)
    requires Escapes(hash, |keys|)
    ensures ids == Resolved(hash, keys)
  {
    hide SortStrings, Allocate, FreeID, Escapes;
    ids := [];
    if |keys| == 0 { return; }
    var sorted := SortStrings(keys);
    var used: set<int>, byKey: map<string, int> := {}, map[];
    StartsEmpty(hash, |keys|);
    for i := 0 to |sorted|
      invariant Escapes(hash, i) && Allocate(hash, sorted[..i]) == Allocation(used, byKey)
    {
      AllocateSnoc(hash, sorted, i);
      var id := Rehash(hash, sorted[i], used);
      used, byKey := used + {id}, byKey[sorted[i] := id];
    }
    assert sorted[..|sorted|] == sorted;
    AllocationInjective(hash, sorted);
    for i := 0 to |keys|
      invariant |ids| == i
      invariant forall j :: 0 <= j < i ==> keys[j] in byKey && ids[j] == byKey[keys[j]]
    {
      KeyIsSorted(keys, i);
      ids := ids + [byKey[keys[i]]];
    }
  }

  lemma {:induction false} StartsEmpty(hash: (string, nat) -> int, n: nat)
    requires Escapes(hash, n)
    ensures Escapes(hash, 0) && Allocate(hash, []) == Allocation({}, map[])
  {
  }

  // The rehash loop: attempts from zero until an unused ID turns up.
  method Rehash(hash: (string, nat) -> int, key: string, used: set<int>) returns (id: int)
    requires Leaves(hash, key, used)
    ensures id == FreeID(hash, key, used)
  {
    hide FreeID;
    ghost var free: nat :| hash(key, free) !in used;
    id := hash(key, 0);
    var attempt := 1;
    while id in used
      invariant 1 <= attempt <= free + 1 && id == hash(key, attempt - 1)
      invariant forall m: nat | m < attempt - 1 :: hash(key, m) in used
      decreases free + 1 - attempt
    {
      id := hash(key, attempt);
      attempt := attempt + 1;
    }
    FreeIDIs(hash, key, used, attempt - 1);
  }

  // Equal keys get equal IDs and different keys different ones, each a hash of its key.
  lemma {:induction false} IDsMatchKeys(hash: (string, nat) -> int, keys: seq<string>)
    requires Escapes(hash, |keys|)
    ensures forall i, j :: 0 <= i < |keys| && 0 <= j < |keys| ==>
              (keys[i] == keys[j] <==> Resolved(hash, keys)[i] == Resolved(hash, keys)[j])
    ensures forall i :: 0 <= i < |keys| ==> HashOf(hash, keys[i], Resolved(hash, keys)[i])
  {
    hide SortStrings, Allocate, Escapes, HashOf;
    AllocationInjective(hash, SortStrings(keys));
    forall i | 0 <= i < |keys| ensures HashOf(hash, keys[i], Resolved(hash, keys)[i]) {
      KeyIsSorted(keys, i);
      AllocationHashes(hash, SortStrings(keys), keys[i]);
    }
    forall i, j | 0 <= i < |keys| && 0 <= j < |keys|
      ensures keys[i] == keys[j] <==> Resolved(hash, keys)[i] == Resolved(hash, keys)[j]
    {
      KeyIsSorted(keys, i);
      KeyIsSorted(keys, j);
    }
  }

  // Place `i` has the first of its key's hashes that no place before it has.
  ghost predicate TakesFirst(hash: (string, nat) -> int, key: string, id: int, taken: set<int>)
  {
    exists a: nat :: id == hash(key, a) && id !in taken && forall b: nat :: b < a ==> hash(key, b) in taken
  }

  lemma {:induction false} FreeIDTakesFirst(hash: (string, nat) -> int, key: string, used: set<int>)
    requires Leaves(hash, key, used)
    ensures TakesFirst(hash, key, FreeID(hash, key, used), used)
  {
    FirstFreeExists(hash, key, used);
    var first :| FirstFree(hash, key, used, first);
    FreeIDIs(hash, key, used, first);
  }

  ghost function IDsBefore(byKey: map<string, int>, keys: seq<string>, n: nat): set<int>
    requires n <= |keys| && forall i :: 0 <= i < n ==> keys[i] in byKey
  {
    set i | 0 <= i < n :: byKey[keys[i]]
  }

  ghost predicate InTurn(hash: (string, nat) -> int, r: Allocation, keys: seq<string>, n: nat)
    requires n <= |keys|
  {
    && (forall i :: 0 <= i < n ==> keys[i] in r.byKey) && r.used == IDsBefore(r.byKey, keys, n)
    && forall i :: 0 <= i < n ==> TakesFirst(hash, keys[i], r.byKey[keys[i]], IDsBefore(r.byKey, keys, i))
  }

  lemma {:induction false} NextInTurn(
    hash: (string, nat) -> int, before: Allocation, r: Allocation, keys: seq<string>, n: nat, id: int)
    requires n < |keys| && InTurn(hash, before, keys, n) && forall i :: 0 <= i < n ==> keys[i] != keys[n]
    requires r == Allocation(before.used + {id}, before.byKey[keys[n] := id])
    requires TakesFirst(hash, keys[n], id, before.used)
    ensures InTurn(hash, r, keys, n + 1)
  {
    hide TakesFirst;
    forall i | 0 <= i <= n ensures IDsBefore(r.byKey, keys, i) == IDsBefore(before.byKey, keys, i) {}
    assert IDsBefore(r.byKey, keys, n + 1) == IDsBefore(r.byKey, keys, n) + {id};
  }

  lemma {:induction false} AllocatedInTurn(hash: (string, nat) -> int, keys: seq<string>, n: nat)
    requires n <= |keys| && Escapes(hash, |keys|) && forall i, j :: 0 <= i < j < |keys| ==> keys[i] != keys[j]
    ensures Escapes(hash, n) && InTurn(hash, Allocate(hash, keys[..n]), keys, n)
  {
    hide FreeID, TakesFirst, InTurn, Allocate, Escapes;
    if n == 0 {
      StartsEmpty(hash, |keys|);
      assert InTurn(hash, Allocation({}, map[]), keys, 0) by { NoneInTurn(hash, keys); }
    } else {
      AllocatedInTurn(hash, keys, n - 1);
      AllocateSnoc(hash, keys, n - 1);
      var before := Allocate(hash, keys[..n - 1]);
      FreeIDTakesFirst(hash, keys[n - 1], before.used);
      NextInTurn(hash, before, Allocate(hash, keys[..n]), keys, n - 1, FreeID(hash, keys[n - 1], before.used));
    }
  }

  lemma {:induction false} NoneInTurn(hash: (string, nat) -> int, keys: seq<string>)
    ensures InTurn(hash, Allocation({}, map[]), keys, 0)
  {
  }

  // With different keys the IDs are decided one after the other: each is the first hash of its key that is
  // not the ID of a smaller key.
  lemma {:induction false} IDsTakeFirst(hash: (string, nat) -> int, keys: seq<string>, i: nat)
    requires Escapes(hash, |keys|) && i < |keys| && forall k, l :: 0 <= k < l < |keys| ==> keys[k] != keys[l]
    ensures TakesFirst(hash, keys[i], Resolved(hash, keys)[i],
                       set j | 0 <= j < |keys| && keys[j] != keys[i] && StringLeq(keys[j], keys[i]) ::
                         Resolved(hash, keys)[j])
  {
    hide SortStrings, Allocate, Escapes, TakesFirst, StringLeq;
    var sorted, ids := SortStrings(keys), Resolved(hash, keys);
    SortStringsCanonical(keys, keys);
    NoDupMeans(keys);
    NoDupMeans(sorted);
    SameNoDup(keys, sorted);
    AllocatedInTurn(hash, sorted, |sorted|);
    assert sorted[..|sorted|] == sorted;
    var byKey := Allocate(hash, sorted).byKey;
    forall j | 0 <= j < |keys| ensures keys[j] in sorted && ids[j] == byKey[keys[j]] { KeyIsSorted(keys, j); }
    var k :| 0 <= k < |sorted| && sorted[k] == keys[i];
    SmallerIDs(byKey, keys, sorted, ids, i, k);
  }

  lemma {:induction false} SmallerIDs(
    byKey: map<string, int>, keys: seq<string>, sorted: seq<string>, ids: seq<int>, i: nat, k: nat)
    requires multiset(keys) == multiset(sorted) && SortedBy(StringLeq, sorted) && NoDup(sorted) && |ids| == |keys|
    requires (forall l :: 0 <= l < |sorted| ==> sorted[l] in byKey)
    requires forall j :: 0 <= j < |keys| ==> keys[j] in byKey && ids[j] == byKey[keys[j]]
    requires i < |keys| && k < |sorted| && sorted[k] == keys[i]
    ensures IDsBefore(byKey, sorted, k) ==
            set j | 0 <= j < |keys| && keys[j] != keys[i] && StringLeq(keys[j], keys[i]) :: ids[j]
  {
    hide StringLeq, NoDup;
    NoDupMeans(sorted);
    var smaller := set j | 0 <= j < |keys| && keys[j] != keys[i] && StringLeq(keys[j], keys[i]) :: ids[j];
    forall id | id in IDsBefore(byKey, sorted, k) ensures id in smaller {
      var l :| 0 <= l < k && byKey[sorted[l]] == id;
      assert sorted[l] in multiset(sorted);
      assert sorted[l] in multiset(keys);
      var j :| 0 <= j < |keys| && keys[j] == sorted[l];
    }
    forall id | id in smaller ensures id in IDsBefore(byKey, sorted, k) {
      var j :| 0 <= j < |keys| && keys[j] != keys[i] && StringLeq(keys[j], keys[i]) && ids[j] == id;
      assert keys[j] in multiset(keys);
      assert keys[j] in multiset(sorted);
      var l :| 0 <= l < |sorted| && sorted[l] == keys[j];
      if l > k { StringLeqAntisymmetric(keys[i], keys[j]); }
    }
  }

  // Permuting the input permutes the output: a key's ID does not depend on where the keys stand.
  lemma {:induction false} OrderKeepsIDs(hash: (string, nat) -> int, keys: seq<string>, others: seq<string>)
    requires Escapes(hash, |keys|) && multiset(keys) == multiset(others)
    ensures |others| == |keys|
    ensures forall i, j :: 0 <= i < |keys| && 0 <= j < |others| && keys[i] == others[j] ==>
              Resolved(hash, keys)[i] == Resolved(hash, others)[j]
  {
    hide SortStrings, Allocate;
    assert |multiset(keys)| == |multiset(others)|;
    SortStringsCanonical(keys, others);
  }

  // ---- AllocateRefIDs ----

  const MaxRefIDCount := 26

  function Letter(i: nat): string
    requires i < MaxRefIDCount
  {
    ['A' + i as char]
  }

  // The last index of a key.
  function LastIndex(keys: seq<string>, key: string): (r: Option<nat>)
    ensures r.Some? ==> r.value < |keys| && keys[r.value] == key && forall i :: r.value < i < |keys| ==> keys[i] != key
    ensures r.None? ==> key !in keys
  {
    if keys == [] then None
    else if keys[|keys| - 1] == key then Some(|keys| - 1)
    else LastIndex(keys[..|keys| - 1], key)
  }

  lemma {:induction false} LastIndexStep(keys: seq<string>, i: nat, key: string)
    requires i < |keys|
    ensures LastIndex(keys[..i + 1], key) == if keys[i] == key then Some(i) else LastIndex(keys[..i], key)
  {
    assert keys[..i + 1][..i] == keys[..i];
  }

  // Each key's letter is that of its last place among the sorted keys.
  ghost predicate Lettered(keys: seq<string>, refIDs: seq<string>)
    requires |keys| <= MaxRefIDCount
  {
    && |refIDs| == |keys|
    && forall i :: 0 <= i < |keys| ==>
         LastIndex(SortStrings(keys), keys[i]).Some? && refIDs[i] == Letter(LastIndex(SortStrings(keys), keys[i]).value)
  }

  method AllocateRefIDs(keys: seq<string>) returns (r: Result<seq<string>>)
    ensures r.Err? <==> |keys| > MaxRefIDCount
    ensures r.Ok? ==> Lettered(keys, r.value)
  {
    hide SortStrings, LastIndex;
    if |keys| > MaxRefIDCount { return Err; }
    var sorted := SortStrings(keys);
    var byKey: map<string, string> := map[];
    for index := 0 to |sorted|
      invariant forall key :: key in byKey <==> LastIndex(sorted[..index], key).Some?
      invariant forall key <- byKey :: byKey[key] == Letter(LastIndex(sorted[..index], key).value)
    {
      forall key { LastIndexStep(sorted, index, key); }
      byKey := byKey[sorted[index] := ['A' + index as char]];
    }
    assert sorted[..|sorted|] == sorted;
    var refIDs: seq<string> := [];
    for index := 0 to |keys|
      invariant |refIDs| == index
      invariant forall i :: 0 <= i < index ==>
                  LastIndex(sorted, keys[i]).Some? && refIDs[i] == Letter(LastIndex(sorted, keys[i]).value)
    {
      KeyIsSorted(keys, index);
      refIDs := refIDs + [byKey[keys[index]]];
    }
    return Ok(refIDs);
  }

  // The letters follow the order of the keys, so they are equal exactly when the keys are.
  lemma {:induction false} LettersFollowKeys(keys: seq<string>, refIDs: seq<string>)
    requires |keys| <= MaxRefIDCount && Lettered(keys, refIDs)
    ensures forall i :: 0 <= i < |keys| ==> |refIDs[i]| == 1 && 'A' <= refIDs[i][0] <= 'Z'
    ensures forall i, j :: 0 <= i < |keys| && 0 <= j < |keys| ==> (keys[i] == keys[j] <==> refIDs[i] == refIDs[j])
    ensures forall i, j :: 0 <= i < |keys| && 0 <= j < |keys| && keys[i] != keys[j] && StringLeq(keys[i], keys[j]) ==>
              refIDs[i][0] < refIDs[j][0]
  {
    hide StringLeq, SortStrings;
    var sorted := SortStrings(keys);
    SortStringsCanonical(keys, keys);
    forall i, j | 0 <= i < |keys| && 0 <= j < |keys| && keys[i] != keys[j] && StringLeq(keys[i], keys[j])
      ensures refIDs[i][0] < refIDs[j][0]
    {
      var a, b := LastIndex(sorted, keys[i]).value, LastIndex(sorted, keys[j]).value;
      if b < a { StringLeqAntisymmetric(keys[i], keys[j]); }
    }
    forall i, j | 0 <= i < |keys| && 0 <= j < |keys| ensures keys[i] == keys[j] <==> refIDs[i] == refIDs[j] {
      var a, b := LastIndex(sorted, keys[i]).value, LastIndex(sorted, keys[j]).value;
      assert refIDs[i][0] == refIDs[j][0] ==> a == b;
    }
  }

  // Different keys take the first letters, all of them.
  lemma {:induction false} LettersAreFirst(keys: seq<string>, refIDs: seq<string>, n: nat)
    requires |keys| <= MaxRefIDCount && Lettered(keys, refIDs) && n < |keys|
    requires forall i, j :: 0 <= i < j < |keys| ==> keys[i] != keys[j]
    ensures exists i :: 0 <= i < |keys| && refIDs[i] == ["ABCDEFGHIJKLMNOPQRSTUVWXYZ"[n]]
  {
    hide SortStrings, LastIndex;
    var sorted := SortStrings(keys);
    NoDupMeans(keys);
    NoDupMeans(sorted);
    assert sorted[n] in multiset(keys) by { assert sorted[n] in multiset(sorted); }
    var i :| 0 <= i < |keys| && keys[i] == sorted[n];
    assert LastIndex(sorted, keys[i]) == Some(n);
    assert Letter(n) == ["ABCDEFGHIJKLMNOPQRSTUVWXYZ"[n]] by { Alphabet(n); }
  }

  lemma {:induction false} Alphabet(n: nat)
    requires n < MaxRefIDCount
    ensures Letter(n) == ["ABCDEFGHIJKLMNOPQRSTUVWXYZ"[n]]
  {
  }

  // Permuting the keys permutes the letters.
  lemma {:induction false} OrderKeepsLetters(
    keys: seq<string>, refIDs: seq<string>, others: seq<string>, otherIDs: seq<string>)
    requires |keys| <= MaxRefIDCount && |others| <= MaxRefIDCount && multiset(keys) == multiset(others)
    requires Lettered(keys, refIDs) && Lettered(others, otherIDs)
    ensures forall i, j :: 0 <= i < |keys| && 0 <= j < |others| && keys[i] == others[j] ==> refIDs[i] == otherIDs[j]
  {
    SortStringsCanonical(keys, others);
  }
}
