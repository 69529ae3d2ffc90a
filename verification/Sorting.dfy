/** Stable sorting by a comparator, and facts about permutations. */
module Sorting {

  // ----- permutations -----

  function Map<T, U>(f: T -> U, s: seq<T>): (r: seq<U>)
    ensures |r| == |s| && forall i :: 0 <= i < |s| ==> r[i] == f(s[i])
  {
    seq(|s|, i requires 0 <= i < |s| => f(s[i]))
  }

  lemma SameElements<T>(a: seq<T>, b: seq<T>)
    requires multiset(a) == multiset(b)
    ensures |a| == |b| && forall x :: x in a <==> x in b
  {
    assert |multiset(a)| == |multiset(b)|;
    assert forall x :: x in a <==> x in multiset(a);
    assert forall x :: x in b <==> x in multiset(b);
  }

  function Without<T>(s: seq<T>, j: nat): seq<T>
    requires j < |s|
  {
    s[..j] + s[j + 1..]
  }

  lemma Removal<T>(s: seq<T>, j: nat)
    requires j < |s|
    ensures multiset(Without(s, j)) == multiset(s) - multiset{s[j]}
  {
    assert s == s[..j] + ([s[j]] + s[j + 1..]);
  }

  /** Removing before or after mapping is the same. */
  lemma MapWithout<T, U>(f: T -> U, s: seq<T>, j: nat)
    requires j < |s|
    ensures Map(f, Without(s, j)) == Without(Map(f, s), j)
    ensures multiset(Map(f, s)) == multiset(Map(f, Without(s, j))) + multiset{f(s[j])}
  {
    var m := Map(f, s);
    assert m == m[..j] + ([m[j]] + m[j + 1..]);
    assert multiset(m) == multiset(m[..j]) + (multiset{m[j]} + multiset(m[j + 1..]));
    assert Map(f, Without(s, j)) == Without(m, j);
  }

  lemma {:induction false} MapPermutes<T, U>(f: T -> U, a: seq<T>, b: seq<T>)
    requires multiset(a) == multiset(b)
    ensures multiset(Map(f, a)) == multiset(Map(f, b))
    decreases |a|
  {
    SameElements(a, b);
    if a != [] {
      assert a[0] in b;
      var j :| 0 <= j < |b| && b[j] == a[0];
      Removal(a, 0);
      Removal(b, j);
      assert |Without(a, 0)| == |a| - 1;
      MapWithout(f, a, 0);
      MapWithout(f, b, j);
      hide Map, Without;
      MapPermutes(f, Without(a, 0), Without(b, j));
    }
  }

  // ----- stable sort -----

  /** A strict weak order: what a comparator must be for a sort to make sense. */
  ghost predicate StrictWeak<T(!new)>(before: (T, T) -> bool) {
    && (forall a, b :: before(a, b) ==> !before(b, a))
    && (forall a, b, c :: before(a, b) && !before(c, b) ==> before(a, c))
  }

  /** Inserts x ahead of the elements it does not come after. */
  function InsertBy<T>(before: (T, T) -> bool, x: T, s: seq<T>): seq<T> {
    if s == [] || !before(s[0], x) then [x] + s else [s[0]] + InsertBy(before, x, s[1..])
  }

  function SortBy<T>(before: (T, T) -> bool, s: seq<T>): seq<T> {
    if s == [] then [] else InsertBy(before, s[0], SortBy(before, s[1..]))
  }

  /** Nothing stands behind something it comes before. */
  ghost predicate Sorted<T>(before: (T, T) -> bool, s: seq<T>) {
    s == [] || (Sorted(before, s[1..]) && forall x :: x in s[1..] ==> !before(x, s[0]))
  }

  lemma {:induction false} InsertFacts<T(!new)>(before: (T, T) -> bool, x: T, s: seq<T>)
    requires StrictWeak(before)
    ensures multiset(InsertBy(before, x, s)) == multiset(s) + multiset{x} && |InsertBy(before, x, s)| == |s| + 1
    ensures forall y :: y in InsertBy(before, x, s) <==> y == x || y in s
    ensures Sorted(before, s) ==> Sorted(before, InsertBy(before, x, s))
  {
    if s != [] && before(s[0], x) {
      InsertFacts(before, x, s[1..]);
      assert s == [s[0]] + s[1..];
      assert InsertBy(before, x, s)[1..] == InsertBy(before, x, s[1..]);
    } else {
      assert InsertBy(before, x, s)[1..] == s;
    }
  }

  lemma {:induction false} SortFacts<T(!new)>(before: (T, T) -> bool, s: seq<T>)
    requires StrictWeak(before)
    ensures multiset(SortBy(before, s)) == multiset(s) && |SortBy(before, s)| == |s| && Sorted(before, SortBy(before, s))
    ensures forall x :: x in SortBy(before, s) <==> x in s
  {
    hide StrictWeak, Sorted;
    if s == [] {
      EmptySorted(before);
    } else {
      SortFacts(before, s[1..]);
      InsertFacts(before, s[0], SortBy(before, s[1..]));
      assert s == [s[0]] + s[1..];
    }
  }

  lemma EmptySorted<T>(before: (T, T) -> bool)
    ensures Sorted(before, [])
  {
  }

  /** Sorting a sorted sequence leaves it as it is: the sort is stable. */
  lemma {:induction false} SortedIsFixed<T>(before: (T, T) -> bool, s: seq<T>)
    requires Sorted(before, s)
    ensures SortBy(before, s) == s
  {
    if s != [] {
      SortedIsFixed(before, s[1..]);
      assert |s| > 1 ==> s[1] in s[1..];
    }
  }

  lemma {:induction false} SortedAt<T>(before: (T, T) -> bool, s: seq<T>, i: nat, j: nat)
    requires Sorted(before, s) && i < j < |s|
    ensures !before(s[j], s[i])
  {
    if i > 0 {
      SortedAt(before, s[1..], i - 1, j - 1);
    } else {
      assert s[j] == s[1..][j - 1];
    }
  }

  lemma {:induction false} SortedFromPairs<T>(before: (T, T) -> bool, s: seq<T>)
    requires forall i, j :: 0 <= i < j < |s| ==> !before(s[j], s[i])
    ensures Sorted(before, s)
  {
    if s != [] {
      forall i, j | 0 <= i < j < |s[1..]| ensures !before(s[1..][j], s[1..][i]) {
        assert !before(s[j + 1], s[i + 1]);
      }
      SortedFromPairs(before, s[1..]);
    }
  }

  /** The comparator tells any two elements of s apart. */
  ghost predicate Separates<T>(before: (T, T) -> bool, s: seq<T>) {
    forall a, b :: a in s && b in s && a != b ==> before(a, b) || before(b, a)
  }

  lemma {:induction false} SortedUnique<T>(before: (T, T) -> bool, a: seq<T>, b: seq<T>)
    requires Sorted(before, a) && Sorted(before, b) && multiset(a) == multiset(b) && Separates(before, a)
    ensures a == b
    decreases |a|
  {
    hide Separates;
    SameElements(a, b);
    if a != [] {
      SameHead(before, a, b);
      SameTail(before, a, b);
      hide Sorted;
      SortedUnique(before, a[1..], b[1..]);
      assert a == [a[0]] + a[1..] && b == [b[0]] + b[1..];
    }
  }

  lemma SameTail<T>(before: (T, T) -> bool, a: seq<T>, b: seq<T>)
    requires multiset(a) == multiset(b) && a != [] && b != [] && a[0] == b[0]
    requires Sorted(before, a) && Sorted(before, b) && Separates(before, a)
    ensures multiset(a[1..]) == multiset(b[1..])
    ensures Sorted(before, a[1..]) && Sorted(before, b[1..]) && Separates(before, a[1..])
  {
    SortedTail(before, a);
    SortedTail(before, b);
    hide Sorted;
    TailElements(a);
    TailElements(b);
  }

  lemma TailElements<T>(s: seq<T>)
    requires s != []
    ensures multiset(s[1..]) == multiset(s) - multiset{s[0]} && forall x :: x in s[1..] ==> x in s
  {
    assert s == [s[0]] + s[1..];
  }

  lemma SortedTail<T>(before: (T, T) -> bool, s: seq<T>)
    requires Sorted(before, s) && s != []
    ensures Sorted(before, s[1..])
  {
  }

  lemma SameHead<T>(before: (T, T) -> bool, a: seq<T>, b: seq<T>)
    requires Sorted(before, a) && Sorted(before, b) && Separates(before, a) && a != [] && b != []
    requires a[0] in b && b[0] in a
    ensures a[0] == b[0]
  {
    assert a == [a[0]] + a[1..] && b == [b[0]] + b[1..];
  }

  /** The sorted order does not depend on the input order when the comparator separates the elements. */
  lemma SortOfPermutation<T(!new)>(before: (T, T) -> bool, a: seq<T>, b: seq<T>)
    requires StrictWeak(before) && multiset(a) == multiset(b) && Separates(before, a)
    ensures SortBy(before, a) == SortBy(before, b)
  {
    SortFacts(before, a);
    SortFacts(before, b);
    SortedUnique(before, SortBy(before, a), SortBy(before, b));
  }

  // ----- places: a stable sort by position -----

  function Indices(from: nat, n: nat): (r: seq<nat>)
    requires from <= n
    ensures |r| == n - from && forall k :: 0 <= k < n - from ==> r[k] == from + k
    decreases n - from
  {
    if from == n then [] else [from] + Indices(from + 1, n)
  }

  /** Compares positions of s by the elements there. */
  function ByElement<T>(before: (T, T) -> bool, s: seq<T>): (nat, nat) -> bool {
    (i: nat, j: nat) => i < |s| && j < |s| && before(s[i], s[j])
  }

  /** The positions of s in the order a stable sort puts them. */
  function Places<T>(before: (T, T) -> bool, s: seq<T>): seq<nat> {
    SortBy(ByElement(before, s), Indices(0, |s|))
  }

  predicate Within<T>(s: seq<T>, p: seq<nat>) {
    forall k :: 0 <= k < |p| ==> p[k] < |s|
  }

  function Pick<T>(s: seq<T>, p: seq<nat>): (r: seq<T>)
    requires Within(s, p)
    ensures |r| == |p| && forall k :: 0 <= k < |p| ==> r[k] == s[p[k]]
  {
    seq(|p|, k requires 0 <= k < |p| => s[p[k]])
  }

  lemma {:induction false} InsertPicks<T>(before: (T, T) -> bool, s: seq<T>, i: nat, p: seq<nat>)
    requires i < |s| && Within(s, p)
    ensures var r := InsertBy(ByElement(before, s), i, p);
            && Within(s, r) && |r| == |p| + 1 && (forall j :: j in r <==> j == i || j in p)
            && Pick(s, r) == InsertBy(before, s[i], Pick(s, p))
  {
    var r := InsertBy(ByElement(before, s), i, p);
    if p != [] && before(s[p[0]], s[i]) {
      InsertPicks(before, s, i, p[1..]);
      var rest := InsertBy(ByElement(before, s), i, p[1..]);
      assert r == [p[0]] + rest;
      assert Pick(s, p)[1..] == Pick(s, p[1..]);
      assert Pick(s, r) == [s[p[0]]] + Pick(s, rest);
      assert p == [p[0]] + p[1..];
    } else {
      assert r == [i] + p;
      assert Pick(s, r) == [s[i]] + Pick(s, p);
    }
  }

  /** Position i belongs ahead of j: by element, ties by position. */
  predicate Ahead<T>(before: (T, T) -> bool, s: seq<T>, i: nat, j: nat)
    requires i < |s| && j < |s|
  {
    before(s[i], s[j]) || (!before(s[j], s[i]) && i < j)
  }

  predicate Stable<T>(before: (T, T) -> bool, s: seq<T>, p: seq<nat>)
    requires Within(s, p)
  {
    forall x, y :: 0 <= x < y < |p| ==> Ahead(before, s, p[x], p[y])
  }

  lemma {:induction false} InsertStable<T(!new)>(before: (T, T) -> bool, s: seq<T>, i: nat, p: seq<nat>)
    requires StrictWeak(before) && i < |s| && Within(s, p) && Stable(before, s, p) && forall j :: j in p ==> i < j
    ensures Within(s, InsertBy(ByElement(before, s), i, p)) && Stable(before, s, InsertBy(ByElement(before, s), i, p))
  {
    InsertPicks(before, s, i, p);
    if p != [] && before(s[p[0]], s[i]) {
      var rest := InsertBy(ByElement(before, s), i, p[1..]);
      assert forall j :: j in p[1..] ==> j in p;
      StableTail(before, s, p);
      InsertStable(before, s, i, p[1..]);
      InsertPicks(before, s, i, p[1..]);
      forall j | j in rest ensures j < |s| && Ahead(before, s, p[0], j) {
        if j != i {
          var z :| 0 <= z < |p[1..]| && p[1..][z] == j;
          assert p[z + 1] == j;
        }
      }
      StableCons(before, s, p[0], rest);
    } else {
      forall j | j in p ensures j < |s| && Ahead(before, s, i, j) {
        var z :| 0 <= z < |p| && p[z] == j;
        assert z > 0 ==> Ahead(before, s, p[0], p[z]);
      }
      StableCons(before, s, i, p);
    }
  }

  lemma StableCons<T>(before: (T, T) -> bool, s: seq<T>, h: nat, p: seq<nat>)
    requires h < |s| && Within(s, p) && Stable(before, s, p) && forall j :: j in p ==> j < |s| && Ahead(before, s, h, j)
    ensures Within(s, [h] + p) && Stable(before, s, [h] + p)
  {
    hide Ahead;
  }

  lemma StableTail<T>(before: (T, T) -> bool, s: seq<T>, p: seq<nat>)
    requires p != [] && Within(s, p) && Stable(before, s, p)
    ensures Within(s, p[1..]) && Stable(before, s, p[1..])
  {
    hide Ahead;
    forall x, y | 0 <= x < y < |p[1..]| ensures Ahead(before, s, p[1..][x], p[1..][y]) {
      assert p[1..][x] == p[x + 1] && p[1..][y] == p[y + 1];
    }
  }

  lemma {:induction false} PlacesFrom<T(!new)>(before: (T, T) -> bool, s: seq<T>, from: nat)
    requires StrictWeak(before) && from <= |s|
    ensures var p := SortBy(ByElement(before, s), Indices(from, |s|));
            && |p| == |s| - from && Within(s, p) && Stable(before, s, p)
            && (forall j :: j in p <==> from <= j < |s|)
            && Pick(s, p) == SortBy(before, s[from..])
    decreases |s| - from
  {
    if from < |s| {
      PlacesFrom(before, s, from + 1);
      var p := SortBy(ByElement(before, s), Indices(from + 1, |s|));
      assert Indices(from, |s|)[1..] == Indices(from + 1, |s|);
      assert s[from..][1..] == s[from + 1..];
      InsertPicks(before, s, from, p);
      InsertStable(before, s, from, p);
    }
  }

  /** The sorted sequence picks each position once, ties in input order. */
  lemma PlacesFacts<T(!new)>(before: (T, T) -> bool, s: seq<T>)
    requires StrictWeak(before)
    ensures |Places(before, s)| == |s| && Within(s, Places(before, s)) && Stable(before, s, Places(before, s))
    ensures Pick(s, Places(before, s)) == SortBy(before, s)
    ensures forall i :: i in Places(before, s) <==> 0 <= i < |s|
  {
    PlacesFrom(before, s, 0);
    assert s[0..] == s;
  }

  /** An element no later one comes before keeps its place ahead of it. */
  lemma KeepsPlace<T(!new)>(before: (T, T) -> bool, s: seq<T>, i: nat, j: nat) returns (x: nat, y: nat)
    requires StrictWeak(before) && i < j < |s| && !before(s[j], s[i])
    ensures x < y < |Places(before, s)| && Places(before, s)[x] == i && Places(before, s)[y] == j
  {
    PlacesFacts(before, s);
    var p := Places(before, s);
    assert i in p && j in p;
    x :| 0 <= x < |p| && p[x] == i;
    y :| 0 <= y < |p| && p[y] == j;
  }

  /** No element comes before its predecessor. */
  predicate InOrder<T>(before: (T, T) -> bool, s: seq<T>) {
    forall i :: 0 < i < |s| ==> !before(s[i], s[i - 1])
  }

  /** Sorting moves nothing exactly when no element comes before its predecessor. */
  lemma PlacesUnchangedIff<T(!new)>(before: (T, T) -> bool, s: seq<T>)
    requires StrictWeak(before)
    ensures Places(before, s) == Indices(0, |s|) <==> InOrder(before, s)
  {
    hide Places, StrictWeak;
    if Places(before, s) == Indices(0, |s|) {
      UnmovedInOrder(before, s);
    }
    if InOrder(before, s) {
      AdjacentSorted(before, s);
      SortedUnmoved(before, s);
    }
  }

  lemma UnmovedInOrder<T(!new)>(before: (T, T) -> bool, s: seq<T>)
    requires StrictWeak(before) && Places(before, s) == Indices(0, |s|)
    ensures InOrder(before, s)
  {
    PlacesFacts(before, s);
    var p := Places(before, s);
    hide Places;
    forall i | 0 < i < |s| ensures !before(s[i], s[i - 1]) {
      assert p[i - 1] == i - 1 && p[i] == i;
      assert Ahead(before, s, p[i - 1], p[i]);
    }
  }

  lemma SortedUnmoved<T>(before: (T, T) -> bool, s: seq<T>)
    requires Sorted(before, s)
    ensures Places(before, s) == Indices(0, |s|)
  {
    hide Sorted, SortBy;
    var all := Indices(0, |s|);
    forall i, j | 0 <= i < j < |all| ensures !ByElement(before, s)(all[j], all[i]) {
      SortedAt(before, s, i, j);
      assert all[i] == i && all[j] == j;
    }
    hide ByElement;
    SortedFromPairs(ByElement(before, s), all);
    SortedIsFixed(ByElement(before, s), all);
  }

  lemma {:induction false} AdjacentSorted<T(!new)>(before: (T, T) -> bool, p: seq<T>)
    requires StrictWeak(before) && InOrder(before, p)
    ensures Sorted(before, p)
  {
    if |p| > 1 {
      forall i | 0 < i < |p[1..]| ensures !before(p[1..][i], p[1..][i - 1]) {
        assert !before(p[i + 1], p[i]);
      }
      AdjacentSorted(before, p[1..]);
      forall x | x in p[1..] ensures !before(x, p[0]) {
        var k :| 0 <= k < |p[1..]| && p[1..][k] == x;
        if k > 0 {
          SortedAt(before, p[1..], 0, k);
        }
        assert !before(p[1], p[0]) && !before(x, p[1]);
      }
    }
  }
}
