/** Wire entities of the v2 catalog protocol and the digests that bind them. */
module CatalogTypes {
  import opened Wrappers
  import opened Identifiers

  const SCOPE_LOCAL := "local"
  const MAX_REQUEST_BYTES := 1048576
  const MAX_SNAPSHOT_BYTES := 536870912
  const MAX_DOCUMENTS := 100000
  const MAX_PAGES := 1024

  /** The metadata a source video carries; null JSON values are None. */
  datatype SourceMeta = SourceMeta(
    channelId: Option<Uuid>, channelHandle: Option<string>, channelName: Option<string>,
    ownerId: Option<Uuid>, title: string, description: string, tags: Option<seq<string>>,
    category: Option<string>, language: Option<string>, license: Option<string>,
    durationSeconds: Option<int>, isSensitive: bool, publishedAt: Option<int>)

  datatype Video = Video(
    id: Uuid, kind: string, privacy: string, state: string, meta: SourceMeta,
    views: int, likes: int, createdAt: Option<int>, updatedAt: Option<int>)

  /** One element of a page's documents array; size is the length of its canonical JSON object. */
  datatype Document = Document(video: Video, eligible: bool, suppressedReason: Option<string>, size: nat)

  /** Raw documents text: either no JSON array, or a spelling of one. Two spellings of one
      array differ in field order, spacing or escapes. */
  datatype RawDocuments = NotAnArray | Array(items: seq<Document>, spelling: nat)

  /** A byte piece of a hashed preimage. */
  datatype Piece = Ch(c: char) | Hex(digest: Digest) | CanonicalJson(items: seq<Document>)

  /** Text of a SHA-256 field. The hash is idealized as collision-free: a digest is its preimage.
      Unknown is a well-formed text nobody has a preimage for; Malformed is not 64 lowercase hex. */
  datatype Digest = Sha256(preimage: seq<Piece>) | Unknown(text: string) | Malformed(text: string)

  datatype PageDigest = PageDigest(pageIndex: int, content: Digest)

  datatype Manifest = Manifest(pageCount: int, documentCount: int, membership: Digest, pages: Digest)

  datatype Identity = Identity(scope: string, epoch: Uuid, generation: int)

  /** Persisted evidence of one page. */
  datatype SnapshotPage = SnapshotPage(digest: PageDigest, documents: RawDocuments, documentCount: int)

  predicate ValidIdentity(v: Identity) {
    v.scope == SCOPE_LOCAL && v.epoch != NIL && v.generation > 0
  }

  function Ids(docs: seq<Document>): seq<Uuid> {
    seq(|docs|, i requires 0 <= i < |docs| => docs[i].video.id)
  }

  /** Sum of the canonical object sizes. */
  function Sizes(docs: seq<Document>): nat {
    if docs == [] then 0 else docs[0].size + Sizes(docs[1..])
  }

  /** Length of the canonical array: brackets, commas and the objects. */
  function CanonicalLength(docs: seq<Document>): nat {
    2 + Sizes(docs) + (if |docs| > 1 then |docs| - 1 else 0)
  }
}

module CatalogDigests {
  import opened Wrappers
  import opened TextOrder
  import opened Identifiers
  import opened CatalogTypes

  const EMPTY_SHA256 := Sha256([])

  /** json.Decode into []any with UseNumber, then json.Marshal: the canonical documents and their
      digest. Every spelling of one array has the same canonical form, jsonb's own included. */
  function DocumentsDigest(raw: RawDocuments): Option<(seq<Document>, Digest)> {
    match raw
    case NotAnArray => None
    case Array(items, _) => Some((items, Sha256([CanonicalJson(items)])))
  }

  /** Text of the canonical bytes once jsonb has stored them and printed them again. */
  function Jsonb(items: seq<Document>): RawDocuments {
    Array(items, 1)
  }

  function Chars(t: string): seq<Piece> {
    seq(|t|, i requires 0 <= i < |t| => Ch(t[i]))
  }

  // ----- membership -----

  function Texts(ids: seq<Uuid>): seq<string> {
    seq(|ids|, i requires 0 <= i < |ids| => ids[i].text)
  }

  function MembershipLines(texts: seq<string>): seq<Piece> {
    if texts == [] then [] else Chars(texts[0]) + [Ch('\n')] + MembershipLines(texts[1..])
  }

  /** The digest of a membership set: its ids in text order, one per line. */
  ghost function SetDigest(ids: set<Uuid>): Digest {
    Sha256(MembershipLines(Enumerate(set id | id in ids :: id.text)))
  }

  predicate ValidMembership(ids: seq<Uuid>) {
    NIL !in ids && NoDup(ids)
  }

  /** The hash writes ids one line at a time. */
  lemma {:induction false} MembershipLinesSnoc(texts: seq<string>, t: string)
    ensures MembershipLines(texts + [t]) == MembershipLines(texts) + Chars(t) + [Ch('\n')]
  {
    if texts == [] {
      assert texts + [t] == [t];
    } else {
      MembershipLinesSnoc(texts[1..], t);
      assert (texts + [t])[1..] == texts[1..] + [t];
    }
  }

  lemma TextsOfMembership(ids: seq<Uuid>)
    requires NoDup(ids)
    ensures NoDup(Texts(ids))
    ensures Elems(Texts(ids)) == set id | id in Elems(ids) :: id.text
    ensures |ids| == |Elems(ids)|
  {
    forall t | t in Texts(ids) ensures t in set id | id in Elems(ids) :: id.text {
      var i :| 0 <= i < |ids| && Texts(ids)[i] == t;
      assert ids[i] in Elems(ids);
    }
    forall t | t in set id | id in Elems(ids) :: id.text ensures t in Texts(ids) {
      var id :| id in Elems(ids) && id.text == t;
      var i :| 0 <= i < |ids| && ids[i] == id;
      assert Texts(ids)[i] == t;
    }
    assert NoDup(Texts(ids)) by {
      forall i, j | 0 <= i < j < |ids| ensures Texts(ids)[i] != Texts(ids)[j] {
        assert ids[i] != ids[j];
      }
    }
    NoDupCard(ids);
  }

  lemma SetDigestOfListing(ids: seq<Uuid>)
    requires NoDup(ids)
    ensures Sha256(MembershipLines(Sort(Texts(ids)))) == SetDigest(Elems(ids))
  {
    TextsOfMembership(ids);
    SortEnumerates(Texts(ids));
  }

  lemma MembershipSnoc(ids: seq<Uuid>, id: Uuid)
    ensures ValidMembership(ids + [id]) <==> ValidMembership(ids) && id != NIL && id !in ids
    ensures Texts(ids + [id]) == Texts(ids) + [id.text]
    ensures Elems(ids + [id]) == Elems(ids) + {id}
  {
    if ValidMembership(ids + [id]) {
      forall i, j | 0 <= i < j < |ids| ensures ids[i] != ids[j] {
        assert (ids + [id])[i] != (ids + [id])[j];
      }
      forall i | 0 <= i < |ids| ensures ids[i] != id && ids[i] != NIL {
        assert (ids + [id])[i] != (ids + [id])[|ids|];
        assert (ids + [id])[i] in ids + [id];
      }
      assert (ids + [id])[|ids|] == id;
    }
  }

  lemma {:induction false} MembershipPrefix(ids: seq<Uuid>, n: nat)
    requires n <= |ids|
    ensures ValidMembership(ids) ==> ValidMembership(ids[..n])
  {
    assert n == |ids| ==> ids[..n] == ids;
    if n < |ids| {
      assert ids == ids[..|ids| - 1] + [ids[|ids| - 1]];
      MembershipSnoc(ids[..|ids| - 1], ids[|ids| - 1]);
      MembershipPrefix(ids[..|ids| - 1], n);
      assert ids[..|ids| - 1][..n] == ids[..n];
    }
  }

  /** Writes one line per id into the hash. */
  method HashLines(texts: seq<string>) returns (digest: seq<Piece>)
    ensures digest == MembershipLines(texts)
  {
    digest := [];
    for i := 0 to |texts|
      invariant digest == MembershipLines(texts[..i])
    {
      MembershipLinesSnoc(texts[..i], texts[i]);
      assert texts[..i + 1] == texts[..i] + [texts[i]];
      digest := digest + Chars(texts[i]) + [Ch('\n')];
    }
    assert texts[..|texts|] == texts;
  }

  /** MembershipDigest rejects the nil id and duplicates, and otherwise hashes the sorted ids:
      the result depends on the set of ids only, not on the order they came in. */
  method MembershipDigest(ids: seq<Uuid>) returns (r: Option<Digest>)
    ensures r == if ValidMembership(ids) then Some(SetDigest(Elems(ids))) else None
  {
    var ordered: seq<string> := [];
    var seen: set<Uuid> := {};
    for i := 0 to |ids|
      invariant seen == Elems(ids[..i])
      invariant ValidMembership(ids[..i])
      invariant ordered == Texts(ids[..i])
    {
      assert ids[..i + 1] == ids[..i] + [ids[i]];
      MembershipSnoc(ids[..i], ids[i]);
      if ids[i] == NIL || ids[i] in seen {
        MembershipPrefix(ids, i + 1);
        return None;
      }
      seen := seen + {ids[i]};
      ordered := ordered + [ids[i].text];
    }
    assert ids[..|ids|] == ids;
    SetDigestOfListing(ids);
    var digest := HashLines(Sort(ordered));
    return Some(Sha256(digest));
  }

  lemma {:induction false} MembershipLinesInjective(a: seq<string>, b: seq<string>)
    requires (forall t :: t in a ==> |t| == 36) && (forall t :: t in b ==> |t| == 36)
    requires MembershipLines(a) == MembershipLines(b)
    ensures a == b
  {
    if a != [] && b != [] {
      var la, lb := MembershipLines(a), MembershipLines(b);
      assert |a[0]| == 36 && |b[0]| == 36;
      assert la[37..] == MembershipLines(a[1..]) && lb[37..] == MembershipLines(b[1..]);
      MembershipLinesInjective(a[1..], b[1..]);
      forall i | 0 <= i < 36 ensures a[0][i] == b[0][i] {
        assert la[i] == Ch(a[0][i]) && lb[i] == Ch(b[0][i]);
      }
      assert a[0] == b[0];
      assert a == [a[0]] + a[1..] && b == [b[0]] + b[1..];
    }
  }

  /** Equal membership digests mean equal membership. */
  lemma SetDigestInjective(a: set<Uuid>, b: set<Uuid>)
    requires SetDigest(a) == SetDigest(b)
    ensures a == b
  {
    var ta, tb := set id | id in a :: id.text, set id | id in b :: id.text;
    forall t | t in Enumerate(ta) ensures |t| == 36 { assert t in Elems(Enumerate(ta)); }
    forall t | t in Enumerate(tb) ensures |t| == 36 { assert t in Elems(Enumerate(tb)); }
    MembershipLinesInjective(Enumerate(ta), Enumerate(tb));
    assert ta == tb;
    forall id ensures id in a <==> id in b {
      assert id in a ==> id.text in ta;
      assert id in b ==> id.text in tb;
    }
  }

  // ----- page sequence -----

  function InsertPage(p: PageDigest, s: seq<PageDigest>): seq<PageDigest> {
    if s == [] || p.pageIndex <= s[0].pageIndex then [p] + s else [s[0]] + InsertPage(p, s[1..])
  }

  /** sort.Slice by page index. */
  function SortPages(s: seq<PageDigest>): seq<PageDigest> {
    if s == [] then [] else InsertPage(s[0], SortPages(s[1..]))
  }

  function PageLine(p: PageDigest): seq<Piece>
    requires p.pageIndex >= 0
  {
    Chars(Decimal(p.pageIndex)) + [Ch(':'), Hex(p.content), Ch('\n')]
  }

  /** The pages are 0, 1, 2, ... from first on, each with a well-formed digest. */
  predicate Contiguous(s: seq<PageDigest>, first: nat) {
    forall i :: 0 <= i < |s| ==> s[i].pageIndex == first + i && !s[i].content.Malformed?
  }

  function PageLines(s: seq<PageDigest>, first: nat): seq<Piece>
    requires Contiguous(s, first)
  {
    if s == [] then [] else PageLine(s[0]) + PageLines(s[1..], first + 1)
  }

  lemma {:induction false} PageLinesSnoc(s: seq<PageDigest>, first: nat, p: PageDigest)
    requires Contiguous(s + [p], first) && Contiguous(s, first)
    requires p.pageIndex >= 0
    ensures PageLines(s + [p], first) == PageLines(s, first) + PageLine(p)
  {
    if s == [] {
      assert s + [p] == [p];
    } else {
      assert (s + [p])[1..] == s[1..] + [p];
      assert (s + [p])[0] == s[0];
      PageLinesSnoc(s[1..], first + 1, p);
    }
  }

  function PagesSequenceDigest(sorted: seq<PageDigest>): Option<Digest> {
    if Contiguous(sorted, 0) then Some(Sha256(PageLines(sorted, 0))) else None
  }

  /** PagesDigest sorts a copy and hashes it only if it is exactly pages 0..n-1. */
  method PagesDigest(pages: seq<PageDigest>) returns (r: Option<Digest>)
    ensures r == PagesSequenceDigest(SortPages(pages))
  {
    var ordered := SortPages(pages);
    var digest: seq<Piece> := [];
    for i := 0 to |ordered|
      invariant Contiguous(ordered[..i], 0)
      invariant digest == PageLines(ordered[..i], 0)
    {
      if ordered[i].pageIndex != i || ordered[i].content.Malformed? {
        return None;
      }
      assert ordered[..i + 1] == ordered[..i] + [ordered[i]];
      PageLinesSnoc(ordered[..i], 0, ordered[i]);
      digest := digest + PageLine(ordered[i]);
    }
    assert ordered[..|ordered|] == ordered;
    return Some(Sha256(digest));
  }

  lemma {:induction false} SortPagesOfContiguous(s: seq<PageDigest>, first: nat)
    requires Contiguous(s, first)
    ensures SortPages(s) == s
  {
    if s != [] {
      SortPagesOfContiguous(s[1..], first + 1);
      assert s == [s[0]] + s[1..];
    }
  }

  lemma {:induction false} PageLinesInjective(a: seq<PageDigest>, b: seq<PageDigest>, first: nat)
    requires Contiguous(a, first) && Contiguous(b, first)
    requires PageLines(a, first) == PageLines(b, first)
    ensures a == b
  {
    if a != [] && b != [] {
      var n := |Decimal(first)|;
      var la, lb := PageLines(a, first), PageLines(b, first);
      assert la == PageLine(a[0]) + PageLines(a[1..], first + 1);
      assert lb == PageLine(b[0]) + PageLines(b[1..], first + 1);
      assert PageLine(a[0])[n + 1] == Hex(a[0].content) && PageLine(b[0])[n + 1] == Hex(b[0].content);
      assert la[n + 1] == Hex(a[0].content) && lb[n + 1] == Hex(b[0].content);
      assert la[n + 3..] == PageLines(a[1..], first + 1) && lb[n + 3..] == PageLines(b[1..], first + 1);
      PageLinesInjective(a[1..], b[1..], first + 1);
      assert a == [a[0]] + a[1..] && b == [b[0]] + b[1..];
    }
  }

  /** The pages digest binds the whole sequence: two page lists that both hash, to one digest,
      hold the same pages in some order. */
  lemma PagesDigestBinds(a: seq<PageDigest>, b: seq<PageDigest>)
    requires PagesSequenceDigest(SortPages(a)).Some?
    requires PagesSequenceDigest(SortPages(a)) == PagesSequenceDigest(SortPages(b))
    ensures SortPages(a) == SortPages(b)
    ensures multiset(a) == multiset(b)
  {
    PageLinesInjective(SortPages(a), SortPages(b), 0);
    SortPagesPermutes(a);
    SortPagesPermutes(b);
  }

  lemma {:induction false} InsertPagePermutes(p: PageDigest, s: seq<PageDigest>)
    ensures multiset(InsertPage(p, s)) == multiset(s) + multiset{p}
  {
    if s != [] {
      assert s == [s[0]] + s[1..];
      InsertPagePermutes(p, s[1..]);
    }
  }

  lemma {:induction false} SortPagesPermutes(s: seq<PageDigest>)
    ensures multiset(SortPages(s)) == multiset(s)
  {
    if s != [] {
      assert s == [s[0]] + s[1..];
      SortPagesPermutes(s[1..]);
      InsertPagePermutes(s[0], SortPages(s[1..]));
    }
  }
}
