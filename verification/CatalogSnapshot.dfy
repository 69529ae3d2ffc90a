/** Manifest validation and whole-snapshot verification. */
module CatalogSnapshot {
  import opened Wrappers
  import opened TextOrder
  import opened Identifiers
  import opened CatalogTypes
  import opened CatalogDigests

  /** Manifest.Validate: shape only. */
  predicate ValidManifest(m: Manifest) {
    && 0 <= m.pageCount <= m.documentCount
    && (m.pageCount == 0 <==> m.documentCount == 0)
    && !m.membership.Malformed? && !m.pages.Malformed?
    && (m.pageCount == 0 ==> m.membership == EMPTY_SHA256 && m.pages == EMPTY_SHA256)
  }

  predicate ManifestInQuota(m: Manifest) {
    m.pageCount <= MAX_PAGES && m.documentCount <= MAX_DOCUMENTS
  }

  function Items(raw: RawDocuments): seq<Document> {
    if raw.Array? then raw.items else []
  }

  /** A page whose stored documents are nonempty, hash to its digest and have its count. */
  predicate SoundPage(p: SnapshotPage) {
    && DocumentsDigest(p.documents) == Some((Items(p.documents), p.digest.content))
    && 0 < |Items(p.documents)| == p.documentCount
  }

  predicate SoundPages(pages: seq<SnapshotPage>) {
    forall p :: p in pages ==> SoundPage(p)
  }

  function AllIds(pages: seq<SnapshotPage>): seq<Uuid> {
    if pages == [] then [] else AllIds(pages[..|pages| - 1]) + Ids(Items(pages[|pages| - 1].documents))
  }

  function TotalBytes(pages: seq<SnapshotPage>): nat {
    if pages == [] then 0 else TotalBytes(pages[..|pages| - 1]) + CanonicalLength(Items(pages[|pages| - 1].documents))
  }

  function PageDigests(pages: seq<SnapshotPage>): seq<PageDigest> {
    seq(|pages|, i requires 0 <= i < |pages| => pages[i].digest)
  }

  /** A complete full: every page sound, the byte ledger and both counts exact, membership
      duplicate-free, and both manifest digests those of the pages. */
  ghost predicate CompleteFull(m: Manifest, pages: seq<SnapshotPage>, canonicalBytes: int) {
    && ValidManifest(m) && ManifestInQuota(m)
    && |pages| == m.pageCount
    && canonicalBytes == TotalBytes(pages) <= MAX_SNAPSHOT_BYTES
    && SoundPages(pages)
    && |AllIds(pages)| == m.documentCount
    && ValidMembership(AllIds(pages))
    && SetDigest(Elems(AllIds(pages))) == m.membership
    && PagesSequenceDigest(SortPages(PageDigests(pages))) == Some(m.pages)
  }

  lemma {:induction false} PrefixTotals(pages: seq<SnapshotPage>, n: nat)
    requires n <= |pages|
    ensures TotalBytes(pages[..n]) <= TotalBytes(pages)
    ensures |AllIds(pages[..n])| <= |AllIds(pages)|
  {
    if n < |pages| {
      PrefixTotals(pages[..|pages| - 1], n);
      assert pages[..|pages| - 1][..n] == pages[..n];
    } else {
      assert pages[..n] == pages;
    }
  }

  lemma ScanStep(pages: seq<SnapshotPage>, i: nat)
    requires i < |pages|
    ensures AllIds(pages[..i + 1]) == AllIds(pages[..i]) + Ids(Items(pages[i].documents))
    ensures TotalBytes(pages[..i + 1]) == TotalBytes(pages[..i]) + CanonicalLength(Items(pages[i].documents))
    ensures PageDigests(pages[..i + 1]) == PageDigests(pages[..i]) + [pages[i].digest]
    ensures SoundPages(pages[..i + 1]) <==> SoundPages(pages[..i]) && SoundPage(pages[i])
    ensures SoundPages(pages) ==> SoundPage(pages[i])
    ensures TotalBytes(pages[..i + 1]) <= TotalBytes(pages)
    ensures |AllIds(pages[..i + 1])| <= |AllIds(pages)|
  {
    assert pages[..i + 1][..i] == pages[..i] && pages[..i + 1] == pages[..i] + [pages[i]];
    PrefixTotals(pages, i + 1);
  }

  /** VerifySnapshot accepts exactly the complete fulls; its early quota exits reject nothing more. */
  method VerifySnapshot(manifest: Manifest, pages: seq<SnapshotPage>, canonicalBytes: int) returns (ok: bool)
    ensures ok <==> CompleteFull(manifest, pages, canonicalBytes)
  {
    if !ValidManifest(manifest) {
      return false;
    }
    if !ManifestInQuota(manifest) || |pages| != manifest.pageCount
       || canonicalBytes < 0 || canonicalBytes > MAX_SNAPSHOT_BYTES {
      return false;
    }
    var ids: seq<Uuid> := [];
    var digests: seq<PageDigest> := [];
    var charged := 0;
    for i := 0 to |pages|
      invariant SoundPages(pages[..i])
      invariant ids == AllIds(pages[..i]) && digests == PageDigests(pages[..i])
      invariant charged == TotalBytes(pages[..i])
    {
      ScanStep(pages, i);
      var content := DocumentsDigest(pages[i].documents);
      if content.None? || content.value.1 != pages[i].digest.content {
        return false;
      }
      var members := content.value.0;
      if members == [] || |members| != pages[i].documentCount {
        return false;
      }
      ids := ids + Ids(members);
      charged := charged + CanonicalLength(members);
      if charged > MAX_SNAPSHOT_BYTES || |ids| > MAX_DOCUMENTS {
        return false;
      }
      digests := digests + [pages[i].digest];
    }
    assert pages[..|pages|] == pages;
    if charged != canonicalBytes || |ids| != manifest.documentCount {
      return false;
    }
    var membership := MembershipDigest(ids);
    if membership != Some(manifest.membership) {
      return false;
    }
    var content := PagesDigest(digests);
    return content == Some(manifest.pages);
  }

  lemma SameIndexSameDigest(a: seq<PageDigest>, p: PageDigest, q: PageDigest)
    requires Contiguous(SortPages(a), 0)
    requires p in multiset(a) && q in multiset(a) && p.pageIndex == q.pageIndex
    ensures p == q
  {
    SortPagesPermutes(a);
    var s := SortPages(a);
    assert p in multiset(s) && q in multiset(s);
    var i :| 0 <= i < |s| && s[i] == p;
    var j :| 0 <= j < |s| && s[j] == q;
  }

  /** A manifest determines the full: two complete fulls under one manifest hold, page index by
      page index, the same documents. */
  lemma ManifestBindsDocuments(m: Manifest, a: seq<SnapshotPage>, bytesA: int, b: seq<SnapshotPage>, bytesB: int)
    requires CompleteFull(m, a, bytesA) && CompleteFull(m, b, bytesB)
    ensures multiset(PageDigests(a)) == multiset(PageDigests(b))
    ensures forall p, q :: p in a && q in b && p.digest.pageIndex == q.digest.pageIndex
              ==> Items(p.documents) == Items(q.documents)
  {
    PagesDigestBinds(PageDigests(a), PageDigests(b));
    hide Contiguous, PageLines, SetDigest, ValidMembership, SortPages;
    forall p, q | p in a && q in b && p.digest.pageIndex == q.digest.pageIndex
      ensures Items(p.documents) == Items(q.documents)
    {
      var i :| 0 <= i < |a| && a[i] == p;
      var j :| 0 <= j < |b| && b[j] == q;
      assert PageDigests(a)[i] == p.digest && PageDigests(b)[j] == q.digest;
      SameIndexSameDigest(PageDigests(b), p.digest, q.digest);
      assert SoundPage(p) && SoundPage(q);
    }
  }
}
