/** The page table of a pending snapshot: what admitting one page changes, and why counting pages
    is enough. */
module CatalogPages {
  import opened Wrappers
  import opened TextOrder
  import opened Identifiers
  import opened CatalogTypes
  import opened CatalogDigests
  import opened CatalogSnapshot
  import opened CatalogModel

  // ----- sequences of pages -----

  lemma {:induction false} AppendIds(a: seq<SnapshotPage>, b: seq<SnapshotPage>)
    ensures AllIds(a + b) == AllIds(a) + AllIds(b)
  {
    if b == [] {
      assert a + b == a;
    } else {
      assert (a + b)[..|a + b| - 1] == a + b[..|b| - 1];
      AppendIds(a, b[..|b| - 1]);
    }
  }

  lemma {:induction false} AppendBytes(a: seq<SnapshotPage>, b: seq<SnapshotPage>)
    ensures TotalBytes(a + b) == TotalBytes(a) + TotalBytes(b)
  {
    if b == [] {
      assert a + b == a;
    } else {
      assert (a + b)[..|a + b| - 1] == a + b[..|b| - 1];
      AppendBytes(a, b[..|b| - 1]);
    }
  }

  lemma {:induction false} IdsOfAllDocuments(pages: seq<SnapshotPage>)
    ensures Ids(AllDocuments(pages)) == AllIds(pages)
  {
    if pages != [] {
      IdsOfAllDocuments(pages[..|pages| - 1]);
    }
  }

  lemma {:induction false} InAllDocuments(pages: seq<SnapshotPage>, d: Document)
    ensures d in AllDocuments(pages) <==> exists p :: p in pages && d in Items(p.documents)
  {
    if pages != [] {
      var init, last := pages[..|pages| - 1], pages[|pages| - 1];
      InAllDocuments(init, d);
      assert pages == init + [last];
      assert last in pages;
      assert forall p :: p in init ==> p in pages;
    }
  }

  lemma {:induction false} InAllIds(pages: seq<SnapshotPage>, id: Uuid)
    ensures id in AllIds(pages) <==> exists p :: p in pages && id in Ids(Items(p.documents))
  {
    if pages != [] {
      var init, last := pages[..|pages| - 1], pages[|pages| - 1];
      InAllIds(init, id);
      assert pages == init + [last];
      assert last in pages;
      assert forall p :: p in init ==> p in pages;
    }
  }

  lemma InIds(docs: seq<Document>, id: Uuid)
    ensures id in Ids(docs) <==> exists d :: d in docs && d.video.id == id
  {
    if id in Ids(docs) {
      var i :| 0 <= i < |docs| && Ids(docs)[i] == id;
      assert docs[i] in docs;
    }
    if d :| d in docs && d.video.id == id {
      var i :| 0 <= i < |docs| && docs[i] == d;
      assert Ids(docs)[i] == id;
    }
  }

  /** Inserting a page's fresh ids anywhere keeps the membership valid. */
  lemma MembershipInsert(a: seq<Uuid>, x: seq<Uuid>, b: seq<Uuid>)
    requires ValidMembership(a + b) && ValidMembership(x)
    requires forall id :: id in x ==> id !in a + b
    ensures ValidMembership(a + x + b)
  {
    var s := a + x + b;
    forall i, j | 0 <= i < j < |s| ensures s[i] != s[j] {
      var i', j' := if i < |a| then i else i - |x|, if j < |a| then j else j - |x|;
      var inX, jnX := |a| <= i < |a| + |x|, |a| <= j < |a| + |x|;
      if inX && jnX {
        assert x[i - |a|] != x[j - |a|];
      } else if !inX && !jnX {
        assert (a + b)[i'] != (a + b)[j'];
      } else if inX {
        assert s[i] in x && (a + b)[j'] == s[j] && s[j] in a + b;
      } else {
        assert s[j] in x && (a + b)[i'] == s[i] && s[i] in a + b;
      }
    }
    assert forall id :: id in s ==> id in a + b || id in x;
  }

  // ----- the page table -----

  lemma {:induction false} PagesBelowAgree(a: map<int, StagedPage>, b: map<int, StagedPage>, n: nat)
    requires forall i :: 0 <= i < n ==> (i in a <==> i in b) && (i in a ==> a[i] == b[i])
    ensures PagesBelow(a, n) == PagesBelow(b, n)
  {
    if n > 0 {
      PagesBelowAgree(a, b, n - 1);
    }
  }

  lemma {:induction false} PagesBelowInsert(pages: map<int, StagedPage>, index: nat, x: StagedPage, n: nat)
    returns (before: seq<SnapshotPage>, after: seq<SnapshotPage>)
    requires index < n && index !in pages
    ensures PagesBelow(pages, n) == before + after
    ensures PagesBelow(pages[index := x], n) == before + [StoredPage(index, x)] + after
  {
    if index == n - 1 {
      PagesBelowAgree(pages, pages[index := x], index);
      before, after := PagesBelow(pages, index), [];
    } else {
      before, after := PagesBelowInsert(pages, index, x, n - 1);
      after := after + if n - 1 in pages then [StoredPage(n - 1, pages[n - 1])] else [];
    }
  }

  lemma {:induction false} InPagesBelow(pages: map<int, StagedPage>, n: nat, p: SnapshotPage)
    ensures p in PagesBelow(pages, n)
       <==> exists i :: 0 <= i < n && i in pages && p == StoredPage(i, pages[i])
  {
    if n > 0 {
      InPagesBelow(pages, n - 1, p);
    }
  }

  lemma {:induction false} CountPagesBelow(pages: map<int, StagedPage>, n: nat)
    ensures |PagesBelow(pages, n)| == |set i | i in pages && 0 <= i < n|
  {
    if n > 0 {
      CountPagesBelow(pages, n - 1);
      var smaller, larger := set i | i in pages && 0 <= i < n - 1, set i | i in pages && 0 <= i < n;
      if n - 1 in pages {
        assert larger == smaller + {n - 1};
      } else {
        assert larger == smaller;
      }
    }
  }

  /** A table whose indexes are 0..n-1 lists them in order. */
  lemma {:induction false} FullTable(pages: map<int, StagedPage>, n: nat)
    requires forall i :: 0 <= i < n ==> i in pages
    ensures |PagesBelow(pages, n)| == n
    ensures forall i :: 0 <= i < n ==> PagesBelow(pages, n)[i] == StoredPage(i, pages[i])
  {
    if n > 0 {
      FullTable(pages, n - 1);
    }
  }

  lemma {:induction false} PagesBelowStable(pages: map<int, StagedPage>, n: nat, m: nat)
    requires n <= m && forall i :: i in pages ==> i < n
    ensures PagesBelow(pages, m) == PagesBelow(pages, n)
  {
    if m > n {
      PagesBelowStable(pages, n, m - 1);
    }
  }

  predicate IndexesInRange(pages: map<int, StagedPage>) {
    forall i :: i in pages ==> 0 <= i < MAX_PAGES
  }

  lemma InTable(pages: map<int, StagedPage>, p: SnapshotPage)
    requires IndexesInRange(pages)
    ensures p in PagesInOrder(pages) <==> exists i :: i in pages && p == StoredPage(i, pages[i])
  {
    InPagesBelow(pages, PageLimit(), p);
  }

  lemma CountTable(pages: map<int, StagedPage>)
    requires IndexesInRange(pages)
    ensures |PagesInOrder(pages)| == |pages|
  {
    CountPagesBelow(pages, PageLimit());
    assert (set i | i in pages && 0 <= i < PageLimit()) == pages.Keys;
  }

  lemma StagedIds(pages: map<int, StagedPage>, id: Uuid)
    requires IndexesInRange(pages)
    ensures Staged(pages, id) <==> id in AllIds(PagesInOrder(pages))
  {
    InAllIds(PagesInOrder(pages), id);
    if Staged(pages, id) {
      var i :| i in pages && id in Ids(pages[i].documents);
      InTable(pages, StoredPage(i, pages[i]));
    }
    if id in AllIds(PagesInOrder(pages)) {
      var p :| p in PagesInOrder(pages) && id in Ids(Items(p.documents));
      InTable(pages, p);
    }
  }

  /** Pigeonhole: n distinct indexes below n are all of 0..n-1. */
  lemma {:induction false} Pigeonhole(s: set<int>, n: nat)
    requires |s| == n && forall i :: i in s ==> 0 <= i < n
    ensures forall i :: 0 <= i < n ==> i in s
  {
    if n > 0 {
      if n - 1 in s {
        Pigeonhole(s - {n - 1}, n - 1);
        forall i | 0 <= i < n ensures i in s {
          assert i < n - 1 ==> i in s - {n - 1};
        }
      } else {
        Smaller(s, n - 1);
        assert false;
      }
    }
  }

  lemma {:induction false} Smaller(s: set<int>, n: nat)
    requires forall i :: i in s ==> 0 <= i < n
    ensures |s| <= n
  {
    if n > 0 {
      Smaller(s - {n - 1}, n - 1);
    } else {
      assert forall i :: i !in s;
    }
  }

  lemma LastRow(pages: map<int, StagedPage>, n: nat)
    requires n - 1 in pages && n > 0
    ensures AllIds(PagesBelow(pages, n)) == AllIds(PagesBelow(pages, n - 1)) + Ids(pages[n - 1].documents)
  {
    var row := [StoredPage(n - 1, pages[n - 1])];
    AppendIds(PagesBelow(pages, n - 1), row);
    assert row[..0] == [];
  }

  lemma DisjointHalves(a: seq<Uuid>, b: seq<Uuid>, id: Uuid)
    requires NoDup(a + b) && id in a
    ensures id !in b
  {
    var x :| 0 <= x < |a| && a[x] == id;
    forall y | 0 <= y < |b| ensures b[y] != id {
      assert (a + b)[x] != (a + b)[|a| + y];
    }
  }

  lemma SplitMembership(a: seq<Uuid>, b: seq<Uuid>)
    requires ValidMembership(a + b)
    ensures ValidMembership(a) && ValidMembership(b) && forall id :: id in b ==> id !in a
  {
    MembershipPrefix(a + b, |a|);
    assert (a + b)[..|a|] == a;
    forall i, j | 0 <= i < j < |b| ensures b[i] != b[j] {
      assert (a + b)[|a| + i] != (a + b)[|a| + j];
    }
    forall id | id in a ensures id !in b {
      DisjointHalves(a, b, id);
    }
    assert forall id :: id in b ==> id in a + b;
  }

  lemma NoLastRow(pages: map<int, StagedPage>, n: nat)
    requires n > 0 && n - 1 !in pages
    ensures PagesBelow(pages, n) == PagesBelow(pages, n - 1)
  {
  }

  lemma WithoutLastRow(pages: map<int, StagedPage>, last: nat)
    requires ValidMembership(AllIds(PagesBelow(pages, last + 1)))
    ensures ValidMembership(AllIds(PagesBelow(pages, last)))
    ensures last in pages ==> ValidMembership(Ids(pages[last].documents))
    ensures last in pages ==> forall id :: id in Ids(pages[last].documents) ==> id !in AllIds(PagesBelow(pages, last))
  {
    hide ValidMembership, AllIds, PagesBelow;
    if last in pages {
      LastRow(pages, last + 1);
      SplitMembership(AllIds(PagesBelow(pages, last)), Ids(pages[last].documents));
    } else {
      NoLastRow(pages, last + 1);
    }
  }

  lemma StagedBelow(pages: map<int, StagedPage>, n: nat, i: int, id: Uuid)
    requires i in pages && 0 <= i < n && id in Ids(pages[i].documents)
    ensures id in AllIds(PagesBelow(pages, n))
  {
    InAllIds(PagesBelow(pages, n), id);
    InPagesBelow(pages, n, StoredPage(i, pages[i]));
  }
}
