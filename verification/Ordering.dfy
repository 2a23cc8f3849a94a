/** Go's byte-wise string order and the library sorts. `sort.Slice`, `sort.Strings`
    and `slices.SortFunc` are library code: they are modelled by one function
    that returns a sorted permutation, and every use is shown to have only one. */
module Ordering {

  // Go's `<=` on strings: byte by byte, a proper prefix comes first.
  predicate StringLeq(a: string, b: string)
  {
    if a == "" then true
    else if b == "" then false
    else a[0] < b[0] || (a[0] == b[0] && StringLeq(a[1..], b[1..]))
  }

  // The strings agree up to a place where the one ends or has the smaller character.
  ghost predicate ComesFirst(a: string, b: string, k: nat)
  {
    k <= |a| && k <= |b| && a[..k] == b[..k] && (k == |a| || (k < |b| && a[k] < b[k]))
  }

  lemma {:induction false} StringLeqMeans(a: string, b: string)
    ensures StringLeq(a, b) <==> exists k: nat :: ComesFirst(a, b, k)
  {
    if a == "" {
      assert ComesFirst(a, b, 0);
    } else if b != "" {
      if a[0] < b[0] { assert ComesFirst(a, b, 0); }
      StringLeqMeans(a[1..], b[1..]);
      if a[0] == b[0] && StringLeq(a[1..], b[1..]) {
        var k: nat :| ComesFirst(a[1..], b[1..], k);
        assert a[..k + 1] == [a[0]] + a[1..][..k] && b[..k + 1] == [b[0]] + b[1..][..k];
        assert ComesFirst(a, b, k + 1);
      }
      if exists k: nat :: ComesFirst(a, b, k) {
        var k: nat :| ComesFirst(a, b, k);
        if k > 0 {
          assert a[..k][0] == b[..k][0] && a[1..][..k - 1] == a[..k][1..] && b[1..][..k - 1] == b[..k][1..];
          assert ComesFirst(a[1..], b[1..], k - 1);
        }
      }
    }
  }

  lemma {:induction false} StringLeqTotal(a: string, b: string)
    ensures StringLeq(a, b) || StringLeq(b, a)
  {
    if a != "" && b != "" { StringLeqTotal(a[1..], b[1..]); }
  }

  lemma {:induction false} StringLeqAntisymmetric(a: string, b: string)
    requires StringLeq(a, b) && StringLeq(b, a)
    ensures a == b
  {
    if a != "" && b != "" {
      StringLeqAntisymmetric(a[1..], b[1..]);
      assert a == [a[0]] + a[1..] && b == [b[0]] + b[1..];
    }
  }

  lemma {:induction false} StringLeqTransitive(a: string, b: string, c: string)
    requires StringLeq(a, b) && StringLeq(b, c)
    ensures StringLeq(a, c)
  {
    if a != "" && b != "" && c != "" && a[0] == b[0] == c[0] {
      StringLeqTransitive(a[1..], b[1..], c[1..]);
    }
  }

  // ---- Sorting by a comparison ----

  ghost predicate TotalPreorder<T(!new)>(leq: (T, T) -> bool)
  {
    && (forall x, y :: leq(x, y) || leq(y, x))
    && (forall x, y, z :: leq(x, y) && leq(y, z) ==> leq(x, z))
  }

  // No two different members of `xs` tie.
  ghost predicate NoTies<T>(leq: (T, T) -> bool, xs: multiset<T>)
  {
    forall x, y :: x in xs && y in xs && leq(x, y) && leq(y, x) ==> x == y
  }

  ghost predicate SortedBy<T>(leq: (T, T) -> bool, xs: seq<T>)
  {
    forall i, j :: 0 <= i < j < |xs| ==> leq(xs[i], xs[j])
  }

  function Insert<T>(leq: (T, T) -> bool, x: T, xs: seq<T>): (r: seq<T>)
    ensures multiset(r) == multiset{x} + multiset(xs)
  {
    if xs == [] then [x]
    else if leq(x, xs[0]) then
      assert xs == [xs[0]] + xs[1..];
      [x] + xs
    else
      assert xs == [xs[0]] + xs[1..];
      [xs[0]] + Insert(leq, x, xs[1..])
  }

  function SortBy<T>(leq: (T, T) -> bool, xs: seq<T>): (r: seq<T>)
    ensures multiset(r) == multiset(xs)
    ensures |r| == |xs|
  {
    if xs == [] then []
    else
      assert xs == [xs[0]] + xs[1..];
      var r := Insert(leq, xs[0], SortBy(leq, xs[1..]));
      assert |multiset(r)| == |multiset(xs)|;
      r
  }

  lemma {:induction false} InsertSorted<T(!new)>(leq: (T, T) -> bool, x: T, xs: seq<T>)
    requires TotalPreorder(leq) && SortedBy(leq, xs)
    ensures SortedBy(leq, Insert(leq, x, xs))
  {
    if xs != [] && !leq(x, xs[0]) {
      var rest := Insert(leq, x, xs[1..]);
      InsertSorted(leq, x, xs[1..]);
      forall y | y in rest ensures leq(xs[0], y) {
        assert y in multiset(rest);
      }
    }
  }

  lemma {:induction false} SortBySorted<T(!new)>(leq: (T, T) -> bool, xs: seq<T>)
    requires TotalPreorder(leq)
    ensures SortedBy(leq, SortBy(leq, xs))
  {
    if xs != [] {
      SortBySorted(leq, xs[1..]);
      InsertSorted(leq, xs[0], SortBy(leq, xs[1..]));
    }
  }

  lemma {:induction false} FirstIsLeast<T(!new)>(leq: (T, T) -> bool, xs: seq<T>, y: T)
    requires TotalPreorder(leq) && SortedBy(leq, xs) && xs != []
    requires y in multiset(xs)
    ensures leq(xs[0], y)
  {
    var i :| 0 <= i < |xs| && xs[i] == y;
    assert leq(y, y);
  }

  // Without ties there is exactly one sorted arrangement, so the choice of
  // sorting algorithm (and its instability) cannot be observed.
  lemma {:induction false} SortedUnique<T(!new)>(leq: (T, T) -> bool, xs: seq<T>, ys: seq<T>)
    requires TotalPreorder(leq)
    requires SortedBy(leq, xs) && SortedBy(leq, ys)
    requires multiset(xs) == multiset(ys)
    requires NoTies(leq, multiset(xs))
    ensures xs == ys
  {
    assert |multiset(xs)| == |multiset(ys)|;
    if xs != [] {
      SameFirst(leq, xs, ys);
      assert xs == [xs[0]] + xs[1..] && ys == [ys[0]] + ys[1..];
      assert multiset(xs[1..]) == multiset(xs) - multiset{xs[0]};
      assert multiset(ys[1..]) == multiset(ys) - multiset{ys[0]};
      hide SortedBy;
      SortedTail(leq, xs);
      SortedTail(leq, ys);
      SortedUnique(leq, xs[1..], ys[1..]);
    }
  }

  lemma {:induction false} SortedTail<T>(leq: (T, T) -> bool, xs: seq<T>)
    requires xs != [] && SortedBy(leq, xs)
    ensures SortedBy(leq, xs[1..])
  {
  }

  lemma {:induction false} SameFirst<T(!new)>(leq: (T, T) -> bool, xs: seq<T>, ys: seq<T>)
    requires TotalPreorder(leq) && xs != [] && ys != []
    requires SortedBy(leq, xs) && SortedBy(leq, ys)
    requires multiset(xs) == multiset(ys) && NoTies(leq, multiset(xs))
    ensures xs[0] == ys[0]
  {
    assert ys[0] in multiset(ys) && xs[0] in multiset(xs);
    FirstIsLeast(leq, xs, ys[0]);
    FirstIsLeast(leq, ys, xs[0]);
  }

  lemma {:induction false} SortByCanonical<T(!new)>(leq: (T, T) -> bool, xs: seq<T>, ys: seq<T>)
    requires TotalPreorder(leq)
    requires NoTies(leq, multiset(xs))
    ensures SortBy(leq, xs) == SortBy(leq, ys) <==> multiset(xs) == multiset(ys)
  {
    SortBySorted(leq, xs);
    SortBySorted(leq, ys);
    if multiset(xs) == multiset(ys) {
      SortedUnique(leq, SortBy(leq, xs), SortBy(leq, ys));
    } else if SortBy(leq, xs) == SortBy(leq, ys) {
      assert false;
    }
  }

  // `sort.Strings`.
  function SortStrings(xs: seq<string>): (r: seq<string>)
    ensures multiset(r) == multiset(xs)
    ensures |r| == |xs|
  {
    SortBy(StringLeq, xs)
  }

  lemma {:induction false} StringOrder(xs: multiset<string>)
    ensures TotalPreorder(StringLeq)
    ensures NoTies(StringLeq, xs)
  {
    forall x, y ensures StringLeq(x, y) || StringLeq(y, x) { StringLeqTotal(x, y); }
    forall x, y, z | StringLeq(x, y) && StringLeq(y, z) ensures StringLeq(x, z) { StringLeqTransitive(x, y, z); }
    forall x, y | x in xs && y in xs && StringLeq(x, y) && StringLeq(y, x) ensures x == y {
      StringLeqAntisymmetric(x, y);
    }
  }

  lemma {:induction false} SortStringsCanonical(xs: seq<string>, ys: seq<string>)
    ensures SortStrings(xs) == SortStrings(ys) <==> multiset(xs) == multiset(ys)
    ensures SortedBy(StringLeq, SortStrings(xs))
  {
    StringOrder(multiset(xs));
    SortByCanonical(StringLeq, xs, ys);
    SortBySorted(StringLeq, xs);
  }

  // ---- Lists of images ----

  function Apply<X, Y>(f: X -> Y, xs: seq<X>): (r: seq<Y>)
    ensures |r| == |xs|
    ensures forall i :: 0 <= i < |xs| ==> r[i] == f(xs[i])
  {
    if xs == [] then [] else [f(xs[0])] + Apply(f, xs[1..])
  }

  lemma {:induction false} ApplyDrop<X, Y>(f: X -> Y, xs: seq<X>, j: nat)
    requires j < |xs|
    ensures multiset(Apply(f, xs)) == multiset(Apply(f, xs[..j] + xs[j + 1..])) + multiset{f(xs[j])}
  {
    var r := Apply(f, xs);
    assert Apply(f, xs[..j] + xs[j + 1..]) == r[..j] + r[j + 1..];
    assert r == r[..j] + [r[j]] + r[j + 1..];
  }

  // Taking the first of `xs` and its partner out of both lists.
  lemma {:induction false} TakePartner<X, Z>(f: X -> Z, xs: seq<X>, ys: seq<X>) returns (j: nat)
    requires multiset(Apply(f, xs)) == multiset(Apply(f, ys)) && xs != []
    ensures j < |ys| && f(xs[0]) == f(ys[j])
    ensures multiset(Apply(f, xs[1..])) == multiset(Apply(f, ys[..j] + ys[j + 1..]))
  {
    hide Apply;
    assert f(xs[0]) == Apply(f, xs)[0];
    assert f(xs[0]) in multiset(Apply(f, ys));
    j :| 0 <= j < |ys| && Apply(f, ys)[j] == f(xs[0]);
    ApplyDrop(f, xs, 0);
    ApplyDrop(f, ys, j);
    assert xs[..0] + xs[0 + 1..] == xs[1..];
    assert multiset(Apply(f, xs[1..])) == multiset(Apply(f, xs)) - multiset{f(xs[0])};
    assert multiset(Apply(f, ys[..j] + ys[j + 1..])) == multiset(Apply(f, ys)) - multiset{f(xs[0])};
  }

  // Two functions that identify the same members have equal images together.
  lemma {:induction false} SameImages<X, Y, Z>(f: X -> Y, g: X -> Z, xs: seq<X>, ys: seq<X>)
    requires forall x, y :: x in xs && y in ys && f(x) == f(y) ==> g(x) == g(y)
    requires multiset(Apply(f, xs)) == multiset(Apply(f, ys))
    ensures multiset(Apply(g, xs)) == multiset(Apply(g, ys))
  {
    hide Apply;
    assert |multiset(Apply(f, xs))| == |multiset(Apply(f, ys))|;
    if xs != [] {
      var j := TakePartner(f, xs, ys);
      var rest := ys[..j] + ys[j + 1..];
      SameImages(f, g, xs[1..], rest);
      assert xs[0] in xs && ys[j] in ys;
      PutBack(g, xs, ys, j);
    }
  }

  lemma {:induction false} PutBack<X, Z>(g: X -> Z, xs: seq<X>, ys: seq<X>, j: nat)
    requires xs != [] && j < |ys| && g(xs[0]) == g(ys[j])
    requires multiset(Apply(g, xs[1..])) == multiset(Apply(g, ys[..j] + ys[j + 1..]))
    ensures multiset(Apply(g, xs)) == multiset(Apply(g, ys))
  {
    hide Apply;
    ApplyDrop(g, xs, 0);
    ApplyDrop(g, ys, j);
    assert xs[..0] + xs[0 + 1..] == xs[1..];
  }

  // Permuted lists have permuted images.
  lemma {:induction false} PermutedImages<X, Y>(f: X -> Y, xs: seq<X>, ys: seq<X>)
    requires multiset(xs) == multiset(ys)
    ensures multiset(Apply(f, xs)) == multiset(Apply(f, ys))
  {
    assert Apply((x: X) => x, xs) == xs && Apply((x: X) => x, ys) == ys;
    SameImages((x: X) => x, f, xs, ys);
  }

  // Sorting before or after taking images is the same when the comparison looks only at the images.
  lemma {:induction false} InsertMapped<X(!new), Y(!new)>(
    f: X -> Y, leqX: (X, X) -> bool, leqY: (Y, Y) -> bool, x: X, xs: seq<X>)
    requires forall a, b :: leqX(a, b) == leqY(f(a), f(b))
    ensures Apply(f, Insert(leqX, x, xs)) == Insert(leqY, f(x), Apply(f, xs))
  {
    if xs != [] {
      assert Apply(f, xs) == [f(xs[0])] + Apply(f, xs[1..]);
      if !leqX(x, xs[0]) {
        InsertMapped(f, leqX, leqY, x, xs[1..]);
        var rest := Insert(leqX, x, xs[1..]);
        assert ([xs[0]] + rest)[1..] == rest;
      } else {
        assert ([x] + xs)[1..] == xs;
      }
    }
  }

  lemma {:induction false} SortByMapped<X(!new), Y(!new)>(
    f: X -> Y, leqX: (X, X) -> bool, leqY: (Y, Y) -> bool, xs: seq<X>)
    requires forall a, b :: leqX(a, b) == leqY(f(a), f(b))
    ensures Apply(f, SortBy(leqX, xs)) == SortBy(leqY, Apply(f, xs))
  {
    hide Insert;
    if xs != [] {
      SortByMapped(f, leqX, leqY, xs[1..]);
      InsertMapped(f, leqX, leqY, xs[0], SortBy(leqX, xs[1..]));
      assert Apply(f, xs) == [f(xs[0])] + Apply(f, xs[1..]);
    }
  }

  // ---- Lists without repetition ----

  ghost function ToSet<T>(xs: seq<T>): set<T> { set x <- xs }

  ghost predicate NoDup<T(!new)>(xs: seq<T>) { forall x :: multiset(xs)[x] <= 1 }

  lemma {:induction false} NoDupMeans<T(!new)>(xs: seq<T>)
    ensures NoDup(xs) <==> forall i, j :: 0 <= i < j < |xs| ==> xs[i] != xs[j]
  {
    if i, j :| 0 <= i < j < |xs| && xs[i] == xs[j] {
      assert xs == xs[..j] + xs[j..];
      assert xs[..j][i] == xs[i] && xs[j..][0] == xs[j];
      assert xs[i] in multiset(xs[..j]) && xs[i] in multiset(xs[j..]);
      assert multiset(xs)[xs[i]] >= 2;
    } else if xs != [] {
      NoDupMeans(xs[1..]);
      assert xs == [xs[0]] + xs[1..];
      assert xs[0] !in xs[1..];
    }
  }

  // A permutation of a list with different images has different images.
  lemma {:induction false} PermutedDistinct<X, Y(!new)>(f: X -> Y, xs: seq<X>, ys: seq<X>)
    requires multiset(xs) == multiset(ys)
    requires forall i, j :: 0 <= i < j < |xs| ==> f(xs[i]) != f(xs[j])
    ensures forall i, j :: 0 <= i < j < |ys| ==> f(ys[i]) != f(ys[j])
  {
    hide NoDup;
    PermutedImages(f, xs, ys);
    NoDupMeans(Apply(f, xs));
    NoDupMeans(Apply(f, ys));
    assert NoDup(Apply(f, xs)) <==> NoDup(Apply(f, ys)) by { SameNoDup(Apply(f, xs), Apply(f, ys)); }
    forall i, j | 0 <= i < j < |ys| ensures f(ys[i]) != f(ys[j]) {
      assert Apply(f, ys)[i] != Apply(f, ys)[j];
    }
  }

  lemma {:induction false} SameNoDup<T(!new)>(xs: seq<T>, ys: seq<T>)
    requires multiset(xs) == multiset(ys)
    ensures NoDup(xs) <==> NoDup(ys)
  {
  }

  function AppendUnique<T(==)>(values: seq<T>, wanted: T): seq<T>
  {
    if wanted in values then values else values + [wanted]
  }

  lemma {:induction false} AppendUniqueSet<T(!new)>(values: seq<T>, wanted: T)
    requires NoDup(values)
    ensures NoDup(AppendUnique(values, wanted)) && ToSet(AppendUnique(values, wanted)) == ToSet(values) + {wanted}
  {
    var r := AppendUnique(values, wanted);
    forall x ensures x in ToSet(r) <==> x in ToSet(values) + {wanted} {}
    forall x ensures multiset(r)[x] <= 1 {
      if wanted !in values { assert wanted !in multiset(values); }
    }
  }

  lemma {:induction false} SortKeeps<T(!new)>(xs: seq<T>, ys: seq<T>)
    requires multiset(xs) == multiset(ys)
    ensures NoDup(xs) <==> NoDup(ys)
    ensures ToSet(xs) == ToSet(ys)
  {
    forall x ensures x in ToSet(xs) <==> x in ToSet(ys) {
      assert x in xs <==> x in multiset(xs);
      assert x in ys <==> x in multiset(ys);
    }
  }

  lemma {:induction false} SameSetSameMultiset<T(!new)>(xs: seq<T>, ys: seq<T>)
    requires NoDup(xs) && NoDup(ys) && ToSet(xs) == ToSet(ys)
    ensures multiset(xs) == multiset(ys)
  {
    forall x ensures multiset(xs)[x] == multiset(ys)[x] {
      assert x in ToSet(xs) <==> x in multiset(xs);
      assert x in ToSet(ys) <==> x in multiset(ys);
    }
  }
}
