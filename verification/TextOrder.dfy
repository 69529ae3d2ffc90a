/** Options and results, and the byte-wise string order the service sorts by
    (Go's sort.Strings, SQL's ORDER BY on a text key). */
module Wrappers {
  datatype Option<+T> = None | Some(value: T)

  datatype Result<+T, +E> = Ok(value: T) | Err(error: E)
}

module TextOrder {

  predicate Less(a: string, b: string) {
    if b == "" then false
    else if a == "" then true
    else if a[0] != b[0] then a[0] < b[0]
    else Less(a[1..], b[1..])
  }

  lemma {:induction false} LessTrichotomy(a: string, b: string)
    ensures a == b || Less(a, b) || Less(b, a)
    ensures !(Less(a, b) && Less(b, a))
    ensures !Less(a, a)
  {
    if a != "" {
      LessTrichotomy(a[1..], a[1..]);
    }
    if a != "" && b != "" && a[0] == b[0] {
      LessTrichotomy(a[1..], b[1..]);
      assert a == [a[0]] + a[1..] && b == [b[0]] + b[1..];
    }
  }

  lemma {:induction false} LessTransitive(a: string, b: string, c: string)
    requires Less(a, b) && Less(b, c)
    ensures Less(a, c)
  {
    if a != "" && a[0] == b[0] && b[0] == c[0] {
      LessTransitive(a[1..], b[1..], c[1..]);
    }
  }

  /** Elements of a sequence, as a set. */
  function Elems<T>(s: seq<T>): set<T> {
    set x | x in s
  }

  predicate NoDup<T(==)>(s: seq<T>) {
    forall i, j :: 0 <= i < j < |s| ==> s[i] != s[j]
  }

  ghost predicate Ascending(s: seq<string>) {
    forall i, j :: 0 <= i < j < |s| ==> Less(s[i], s[j])
  }

  function Insert(x: string, s: seq<string>): seq<string> {
    if s == [] || !Less(s[0], x) then [x] + s else [s[0]] + Insert(x, s[1..])
  }

  /** The sorting routine: an insertion sort, which on distinct strings is sort.Strings. */
  function Sort(s: seq<string>): seq<string> {
    if s == [] then [] else Insert(s[0], Sort(s[1..]))
  }

  lemma {:induction false} InsertKeepsAscending(x: string, s: seq<string>)
    requires Ascending(s) && x !in s
    ensures Ascending(Insert(x, s))
    ensures multiset(Insert(x, s)) == multiset(s) + multiset{x}
  {
    hide Less;
    if s != [] {
      LessTrichotomy(s[0], x);
      assert s == [s[0]] + s[1..];
      if Less(s[0], x) {
        var rest := Insert(x, s[1..]);
        InsertKeepsAscending(x, s[1..]);
        forall y | y in rest ensures Less(s[0], y) {
          assert y in multiset(rest);
          assert y == x || y in s[1..];
        }
        AscendingCons(s[0], rest);
      } else {
        forall y | y in s ensures Less(x, y) {
          if y != s[0] {
            assert Less(s[0], y);
            LessTransitive(x, s[0], y);
          }
        }
        AscendingCons(x, s);
      }
    }
  }

  lemma AscendingCons(x: string, s: seq<string>)
    requires Ascending(s) && forall y :: y in s ==> Less(x, y)
    ensures Ascending([x] + s)
  {
    hide Less;
  }

  lemma {:induction false} SortIsAscending(s: seq<string>)
    requires NoDup(s)
    ensures Ascending(Sort(s))
    ensures multiset(Sort(s)) == multiset(s)
  {
    if s != [] {
      assert s == [s[0]] + s[1..];
      SortIsAscending(s[1..]);
      forall y | y in Sort(s[1..]) ensures y in s[1..] {
        assert y in multiset(Sort(s[1..]));
      }
      InsertKeepsAscending(s[0], Sort(s[1..]));
    }
  }

  /** An ascending sequence is determined by its set of elements. */
  lemma {:induction false} AscendingUnique(a: seq<string>, b: seq<string>)
    requires Ascending(a) && Ascending(b) && Elems(a) == Elems(b)
    ensures a == b
  {
    assert (a != [] ==> a[0] in Elems(a)) && (b != [] ==> b[0] in Elems(b));
    if a != [] && b != [] {
      assert a[0] in Elems(b) && b[0] in Elems(a);
      LessTrichotomy(a[0], b[0]);
      assert a[0] == b[0];
      AscendingTail(a);
      AscendingTail(b);
      AscendingUnique(a[1..], b[1..]);
      assert a == [a[0]] + a[1..] && b == [b[0]] + b[1..];
    }
  }

  lemma AscendingTail(a: seq<string>)
    requires Ascending(a) && a != []
    ensures Ascending(a[1..]) && Elems(a[1..]) == Elems(a) - {a[0]}
  {
    forall x | x in Elems(a) - {a[0]} ensures x in a[1..] {
      var i :| 0 <= i < |a| && a[i] == x;
      assert x == a[1..][i - 1];
    }
    LessTrichotomy(a[0], a[0]);
    forall k | 0 <= k < |a[1..]| ensures a[1..][k] != a[0] {
      assert Less(a[0], a[k + 1]);
    }
  }

  /** The elements of a set in ascending order. */
  ghost function Enumerate(s: set<string>): (r: seq<string>)
    ensures Ascending(r) && Elems(r) == s && |r| == |s|
  {
    if s == {} then []
    else
      var x :| x in s;
      var rest := Enumerate(s - {x});
      InsertElems(x, rest);
      Insert(x, rest)
  }

  lemma InsertElems(x: string, s: seq<string>)
    requires Ascending(s) && x !in s
    ensures Ascending(Insert(x, s)) && Elems(Insert(x, s)) == Elems(s) + {x} && |Insert(x, s)| == |s| + 1
  {
    InsertKeepsAscending(x, s);
    hide Ascending, Insert;
    forall y ensures y in Insert(x, s) <==> y in s || y == x {
      assert y in multiset(Insert(x, s)) <==> y in multiset(s) || y == x;
    }
    assert |Insert(x, s)| == |multiset(Insert(x, s))|;
  }

  /** Sorting any duplicate-free listing of a set gives its enumeration. */
  lemma SortEnumerates(s: seq<string>)
    requires NoDup(s)
    ensures Sort(s) == Enumerate(Elems(s)) && |s| == |Elems(s)|
  {
    SortIsAscending(s);
    forall y ensures y in Sort(s) <==> y in s {
      assert y in multiset(Sort(s)) <==> y in multiset(s);
    }
    AscendingUnique(Sort(s), Enumerate(Elems(s)));
    assert |Sort(s)| == |multiset(Sort(s))|;
  }

  lemma {:induction false} ElemsSize<T>(s: seq<T>)
    ensures |Elems(s)| <= |s|
  {
    if s != [] {
      ElemsSize(s[1..]);
      assert s == [s[0]] + s[1..];
      assert Elems(s) == Elems(s[1..]) + {s[0]};
    }
  }

  lemma {:induction false} NoDupCard<T>(s: seq<T>)
    requires NoDup(s)
    ensures |Elems(s)| == |s|
  {
    if s != [] {
      NoDupCard(s[1..]);
      assert s == [s[0]] + s[1..];
      assert Elems(s) == {s[0]} + Elems(s[1..]);
      assert s[0] !in s[1..];
    }
  }

  /** A sequence with as many elements as places repeats none. */
  lemma FullElemsDistinct<T>(s: seq<T>)
    requires |Elems(s)| == |s|
    ensures NoDup(s)
  {
    forall i, j | 0 <= i < j < |s| ensures s[i] != s[j] {
      if s[i] == s[j] {
        var rest := s[..j] + s[j + 1..];
        assert s == s[..j] + [s[j]] + s[j + 1..] && s[..j][i] == s[i];
        assert Elems(rest) == Elems(s);
        ElemsSize(rest);
      }
    }
  }

  lemma SubsetCard<T>(a: set<T>, b: set<T>)
    requires a <= b
    ensures |a| <= |b| && (|a| == |b| ==> a == b)
  {
    assert b == a + (b - a) && (b - a == {} <==> a == b);
  }
}
