/** What every committed transaction keeps, and what holds in every reachable state. */
module CatalogInvariants {
  import opened Wrappers
  import opened TextOrder
  import opened Identifiers
  import opened CatalogTypes
  import opened CatalogDigests
  import opened CatalogSnapshot
  import opened CatalogModel
  import opened CatalogPages
  import LegacyEvents

  // ----- invariants -----

  predicate GoodPage(x: StagedPage) {
    && x.documents != []
    && x.content == Sha256([CanonicalJson(x.documents)])
    && forall d :: d in x.documents ==> ValidDocument(d, SCOPE_LOCAL)
  }

  /** Staged evidence within its quotas, exactly charged, with duplicate-free membership. */
  ghost predicate PagesOk(p: Pending) {
    var rows := PagesInOrder(p.pages);
    && IndexesInRange(p.pages)
    && (forall i :: i in p.pages ==> GoodPage(p.pages[i]))
    && |p.pages| <= MAX_PAGES
    && p.canonicalBytes == TotalBytes(rows) <= MAX_SNAPSHOT_BYTES
    && |AllIds(rows)| <= MAX_DOCUMENTS
    && ValidMembership(AllIds(rows))
  }

  ghost predicate ManifestOk(p: Pending) {
    p.manifest.Some? ==>
      && ValidManifest(p.manifest.value) && ManifestInQuota(p.manifest.value)
      && (forall i :: i in p.pages ==> i < p.manifest.value.pageCount)
      && StagedCount(p.pages) <= p.manifest.value.documentCount
  }

  /** A pending snapshot belongs to the current epoch and is its newest, not yet completed generation. */
  ghost predicate StagedOk(s: State) {
    s.pending.Some? ==>
      var p := s.pending.value;
      && s.scope.Some? && p.epoch == s.scope.value.epoch
      && p.generation == s.scope.value.highest > s.scope.value.completed
      && p.createdAt <= s.clock
      && PagesOk(p) && ManifestOk(p)
  }

  /** No staged id is a remote video's. */
  ghost predicate StagedLocal(s: State) {
    s.pending.Some? ==>
      forall i, id :: i in s.pending.value.pages && id in Ids(s.pending.value.pages[i].documents) ==> !Foreign(s.documents, id)
  }

  predicate Incomplete(s: State) {
    s.pending.Some? && s.pending.value.manifest.Some? ==> |s.pending.value.pages| < s.pending.value.manifest.value.pageCount
  }

  ghost predicate ProjectionOk(scope: Option<Scope>, documents: Documents) {
    scope.Some? && scope.value.manifest.Some? ==>
      Publishes(scope.value.manifest.value, EligibleLocal(documents))
  }

  ghost predicate Publishes(m: Manifest, visible: set<Uuid>) {
    m.documentCount == |visible| && m.membership == SetDigest(visible)
  }

  predicate ScopeOk(s: State) {
    s.scope.Some? ==>
      var scope := s.scope.value;
      && 0 <= scope.completed <= scope.highest
      && (scope.completed > 0 <==> scope.manifest.Some?)
  }

  /** Every epoch ever used, oldest first, each with the one before it as predecessor. */
  ghost predicate Chain(history: map<Uuid, Option<Uuid>>, chain: seq<Uuid>) {
    && NoDup(chain) && Elems(chain) == history.Keys
    && forall i :: 0 <= i < |chain| ==>
      chain[i] in history && history[chain[i]] == if i == 0 then None else Some(chain[i - 1])
  }

  ghost predicate Heads(history: map<Uuid, Option<Uuid>>, epoch: Uuid) {
    exists chain :: chain != [] && Chain(history, chain) && chain[|chain| - 1] == epoch
  }

  ghost predicate ChainOk(s: State) {
    if s.scope.None? then s.history == map[] else Heads(s.history, s.scope.value.epoch)
  }

  ghost predicate Core(s: State) {
    ScopeOk(s) && ChainOk(s) && StagedOk(s) && StagedLocal(s) && ProjectionOk(s.scope, s.documents)
  }

  ghost predicate Inv(s: State) {
    Core(s) && Incomplete(s)
  }

  // ----- epochs -----

  lemma ChainAppend(history: map<Uuid, Option<Uuid>>, chain: seq<Uuid>, epoch: Uuid)
    requires Chain(history, chain) && epoch !in history
    ensures Chain(history[epoch := if chain == [] then None else Some(chain[|chain| - 1])], chain + [epoch])
  {
    assert epoch !in Elems(chain);
    forall id ensures id in Elems(chain + [epoch]) <==> id in history.Keys + {epoch} {
      assert id in Elems(chain) <==> id in history.Keys;
    }
  }

  lemma NoChain()
    ensures Chain(map[], [])
  {
  }

  lemma HeadsAppend(s: State, epoch: Uuid)
    requires ChainOk(s) && epoch !in s.history
    ensures Heads(s.history[epoch := if s.scope.Some? then Some(s.scope.value.epoch) else None], epoch)
  {
    hide Chain;
    var chain: seq<Uuid> := [];
    if s.scope.Some? {
      chain :| chain != [] && Chain(s.history, chain) && chain[|chain| - 1] == s.scope.value.epoch;
    } else {
      NoChain();
    }
    ChainAppend(s.history, chain, epoch);
    var longer := chain + [epoch];
    assert longer != [] && longer[|longer| - 1] == epoch;
  }

  lemma SetEpochKeepsInv(s: State, scope: string, epoch: Uuid, expected: Option<Uuid>)
    requires Inv(s) && SetEpoch(s, scope, epoch, expected).Ok?
    ensures Inv(SetEpoch(s, scope, epoch, expected).value)
  {
    hide PagesOk, ManifestOk, Publishes, Heads;
    if SetEpoch(s, scope, epoch, expected).value != s {
      HeadsAppend(s, epoch);
    }
  }

  // ----- staging -----

  lemma AdmitKeepsCore(s: State, id: Identity)
    requires Core(s) && Admit(s, id).Ok?
    ensures Core(Admit(s, id).value)
    ensures var t := Admit(s, id).value; t.documents == s.documents && t.pending.value.generation == id.generation
  {
    hide Publishes, Heads;
    var t := Admit(s, id).value;
    if t != s {
      NoPagesOk(t.pending.value);
    }
  }

  lemma NoPagesOk(p: Pending)
    requires p.pages == map[] && p.canonicalBytes == 0
    ensures PagesOk(p)
  {
    PagesBelowStable(p.pages, 0, PageLimit());
  }

  /** Adding a page adds exactly its bytes, its documents and its ids. */
  lemma AddPageTotals(pages: map<int, StagedPage>, index: int, x: StagedPage)
    requires 0 <= index < MAX_PAGES && index !in pages && IndexesInRange(pages)
    requires ValidMembership(AllIds(PagesInOrder(pages))) && ValidMembership(Ids(x.documents))
    requires forall id :: id in Ids(x.documents) ==> !Staged(pages, id)
    ensures TotalBytes(PagesInOrder(pages[index := x])) == TotalBytes(PagesInOrder(pages)) + CanonicalLength(x.documents)
    ensures StagedCount(pages[index := x]) == StagedCount(pages) + |x.documents|
    ensures ValidMembership(AllIds(PagesInOrder(pages[index := x])))
  {
    var before, after := PagesBelowInsert(pages, index, x, PageLimit());
    var row := [StoredPage(index, x)];
    OneRow(StoredPage(index, x));
    AppendIds(before, after);
    AppendIds(before, row);
    AppendIds(before + row, after);
    AppendBytes(before, after);
    AppendBytes(before, row);
    AppendBytes(before + row, after);
    forall id | id in Ids(x.documents) ensures id !in AllIds(before) + AllIds(after) {
      StagedIds(pages, id);
    }
    MembershipInsert(AllIds(before), Ids(x.documents), AllIds(after));
  }

  lemma OneRow(r: SnapshotPage)
    ensures AllIds([r]) == Ids(Items(r.documents)) && TotalBytes([r]) == CanonicalLength(Items(r.documents))
  {
    assert [r][..0] == [];
  }

  lemma AddPageKeepsPages(p: Pending, index: int, x: StagedPage)
    requires PagesOk(p) && 0 <= index < MAX_PAGES && index !in p.pages
    requires GoodPage(x) && ValidMembership(Ids(x.documents))
    requires forall id :: id in Ids(x.documents) ==> !Staged(p.pages, id)
    requires p.canonicalBytes + CanonicalLength(x.documents) <= MAX_SNAPSHOT_BYTES
    requires StagedCount(p.pages) + |x.documents| <= MAX_DOCUMENTS && |p.pages| + 1 <= MAX_PAGES
    ensures PagesOk(p.(pages := p.pages[index := x], canonicalBytes := p.canonicalBytes + CanonicalLength(x.documents)))
    ensures StagedCount(p.pages[index := x]) == StagedCount(p.pages) + |x.documents|
  {
    AddPageTotals(p.pages, index, x);
    assert p.pages[index := x].Keys == p.pages.Keys + {index};
  }

  lemma AddPageKeepsCore(t: State, index: int, x: StagedPage)
    requires Core(t) && t.pending.Some? && AddPage(t, index, x).Ok?
    requires 0 <= index < MAX_PAGES && GoodPage(x) && ValidMembership(Ids(x.documents))
    ensures Core(AddPage(t, index, x).value)
    ensures AddPage(t, index, x).value.documents == t.documents
  {
    hide AddPage, StagedOk, StagedLocal, Heads, GoodPage, Publishes;
    AddPageKeepsLocal(t, index, x);
    AddPageKeepsStaged(t, index, x);
    AddPageFrame(t, index, x);
  }

  lemma AddPageFrame(t: State, index: int, x: StagedPage)
    requires t.pending.Some? && AddPage(t, index, x).Ok?
    ensures var u := AddPage(t, index, x).value;
            u == t.(pending := u.pending) && u.pending.Some? && u.pending.value.generation == t.pending.value.generation
  {
    hide Foreign, Staged, StagedCount;
  }

  lemma AddPageKeepsStaged(t: State, index: int, x: StagedPage)
    requires StagedOk(t) && t.pending.Some? && AddPage(t, index, x).Ok?
    requires 0 <= index < MAX_PAGES && GoodPage(x) && ValidMembership(Ids(x.documents))
    ensures StagedOk(AddPage(t, index, x).value)
  {
    hide PagesOk, GoodPage, Foreign, Staged;
    var p := t.pending.value;
    if index !in p.pages {
      AddPageKeepsPages(p, index, x);
    }
  }

  lemma AddPageKeepsLocal(t: State, index: int, x: StagedPage)
    requires StagedLocal(t) && t.pending.Some? && AddPage(t, index, x).Ok?
    ensures StagedLocal(AddPage(t, index, x).value)
  {
    hide Staged, Foreign, StagedCount;
  }

  lemma StagePageKeepsCore(s: State, id: Identity, page: PageDigest, raw: RawDocuments)
    requires Core(s) && StagePage(s, id, page, raw).Ok?
    requires GoodPage(StagedPage(Items(raw), page.content))
    ensures var t := StagePage(s, id, page, raw).value;
            Core(t) && t.documents == s.documents && t.pending.Some? && t.pending.value.generation == id.generation
  {
    hide Core, Admit, AddPage, GoodPage, ValidMembership, DocumentsDigest;
    AdmitKeepsCore(s, id);
    AddPageKeepsCore(Admit(s, id).value, page.pageIndex, StagedPage(Items(raw), page.content));
    AddPageFrame(Admit(s, id).value, page.pageIndex, StagedPage(Items(raw), page.content));
  }

  lemma StageEndKeepsCore(s: State, id: Identity, m: Manifest)
    requires Core(s) && StageEnd(s, id, m).Ok?
    ensures var t := StageEnd(s, id, m).value;
            Core(t) && t.documents == s.documents
            && (t == s || (t.pending.Some? && t.pending.value.generation == id.generation))
  {
    if Admit(s, id).Ok? {
      AdmitKeepsCore(s, id);
      DeclareKeepsCore(Admit(s, id).value, m);
    }
  }

  lemma CoreIndexes(s: State)
    requires Core(s)
    ensures s.pending.Some? ==> IndexesInRange(s.pending.value.pages)
  {
    hide Heads, ProjectionOk, ManifestOk;
  }

  lemma StageKeepsCore(s: State, payload: Payload)
    requires Core(s) && Stage(s, payload).Ok?
    ensures var t := Stage(s, payload).value;
            Core(t) && t.documents == s.documents
            && (t == s || (t.pending.Some? && t.pending.value.generation == payload.identity.generation))
  {
    match payload {
      case PagePayload(id, page, raw, _) => StagePageKeepsCore(s, id, page, raw);
      case EndPayload(id, m) => StageEndKeepsCore(s, id, m);
    }
  }

  lemma DeclareKeepsCore(t: State, m: Manifest)
    requires Core(t) && t.pending.Some? && Declare(t, m).Ok?
    requires ValidManifest(m) && ManifestInQuota(m)
    ensures Core(Declare(t, m).value)
    ensures Declare(t, m).value.documents == t.documents
  {
  }

  // ----- counting pages is enough -----

  lemma StoredRowsSound(p: Pending)
    requires PagesOk(p)
    ensures SoundPages(PagesInOrder(p.pages))
  {
    forall r | r in PagesInOrder(p.pages) ensures SoundPage(r) {
      InTable(p.pages, r);
    }
  }

  /** n pages below n are the pages 0..n-1 and list in order. */
  lemma CountedTable(pages: map<int, StagedPage>, n: nat)
    requires n <= MAX_PAGES && |pages| >= n && forall i :: i in pages ==> 0 <= i < n
    ensures forall i :: i in pages <==> 0 <= i < n
    ensures |PagesInOrder(pages)| == n
    ensures forall i :: 0 <= i < n ==> PagesInOrder(pages)[i] == StoredPage(i, pages[i])
  {
    Smaller(pages.Keys, n);
    Pigeonhole(pages.Keys, n);
    FullTable(pages, n);
    PagesBelowStable(pages, n, PageLimit());
  }

  lemma CountedDigests(p: Pending, n: nat)
    requires PagesOk(p) && n <= MAX_PAGES && |p.pages| >= n && forall i :: i in p.pages ==> 0 <= i < n
    ensures var digests := PageDigests(PagesInOrder(p.pages));
            Contiguous(digests, 0) && SortPages(digests) == digests && |digests| == n
  {
    CountedTable(p.pages, n);
    SortPagesOfContiguous(PageDigests(PagesInOrder(p.pages)), 0);
  }

  /** Once a declared snapshot holds as many pages as its manifest counts, its indexes are exactly
      0..n-1, its page sequence hashes, and verification turns on three facts only: the document
      count and the two manifest digests. */
  lemma CountedPagesSuffice(p: Pending, m: Manifest)
    requires PagesOk(p) && ManifestOk(p) && p.manifest == Some(m) && |p.pages| >= m.pageCount
    ensures forall i :: i in p.pages <==> 0 <= i < m.pageCount
    ensures var rows := PagesInOrder(p.pages);
            && Contiguous(PageDigests(rows), 0)
            && (CompleteFull(m, rows, p.canonicalBytes) <==>
                && |AllIds(rows)| == m.documentCount
                && SetDigest(Elems(AllIds(rows))) == m.membership
                && Sha256(PageLines(PageDigests(rows), 0)) == m.pages)
  {
    CountedTable(p.pages, m.pageCount);
    CountedDigests(p, m.pageCount);
    StoredRowsSound(p);
  }

  // ----- completion -----

  lemma {:induction false} ByIdKeys(docs: seq<Document>)
    ensures ById(docs).Keys == Elems(Ids(docs))
    ensures forall id :: id in ById(docs) ==> ById(docs)[id] in docs && ById(docs)[id].video.id == id
  {
    if docs != [] {
      var init, last := docs[..|docs| - 1], docs[|docs| - 1];
      ByIdKeys(init);
      assert docs == init + [last];
      assert Ids(docs) == Ids(init) + [last.video.id];
      assert last in docs;
    }
  }

  /** After projection the visible local documents are exactly the listed ones. */
  lemma ProjectedEligible(documents: Documents, incoming: map<Uuid, Document>, now: int)
    requires forall id :: id in incoming ==> !Foreign(documents, id)
    ensures EligibleLocal(Projected(documents, incoming, now)) == incoming.Keys
  {
  }

  /** The recheck before projection finds nothing: staged documents are publishable and none is remote. */
  lemma RecheckNeverRejects(s: State)
    requires StagedOk(s) && StagedLocal(s) && s.pending.Some?
    ensures !Rejected(s.documents, AllDocuments(PagesInOrder(s.pending.value.pages)))
  {
    var pages := s.pending.value.pages;
    var rows := PagesInOrder(pages);
    StagedPagesGood(s);
    hide Foreign, PagesInOrder, StagedOk;
    forall d | d in AllDocuments(rows) ensures Publishable(d) && !Foreign(s.documents, d.video.id) {
      InAllDocuments(rows, d);
      var r :| r in rows && d in Items(r.documents);
      InTable(pages, r);
      InIds(Items(r.documents), d.video.id);
    }
  }

  lemma StagedPagesGood(s: State)
    requires StagedOk(s) && s.pending.Some?
    ensures IndexesInRange(s.pending.value.pages)
    ensures forall i :: i in s.pending.value.pages ==> GoodPage(s.pending.value.pages[i])
  {
  }

  lemma CompleteKeepsInv(s: State, id: Identity)
    requires Core(s) && Complete(s, id).Ok?
    requires s.pending.Some? ==> id.generation == s.pending.value.generation || Incomplete(s)
    ensures Inv(Complete(s, id).value)
  {
    if LoadVerified(s, id).value.Some? {
      var rows := PagesInOrder(s.pending.value.pages);
      var docs := AllDocuments(rows);
      ByIdKeys(docs);
      IdsOfAllDocuments(rows);
      forall x | x in ById(docs) ensures !Foreign(s.documents, x) {
        assert ById(docs)[x] in docs;
      }
      ProjectedEligible(s.documents, ById(docs), s.clock);
      NoDupCard(AllIds(rows));
    }
  }

  lemma ApplyEventKeepsInv(s: State, ev: CatalogEvent)
    requires Inv(s)
    ensures Inv(Deliver(s, ev))
  {
    if ApplyEvent(s, ev).Ok? {
      StageKeepsCore(s, ev.payload);
      CompleteKeepsInv(Stage(s, ev.payload).value, ev.payload.identity);
    }
  }

  lemma {:induction false} DeliverAllKeepsInv(s: State, events: seq<CatalogEvent>)
    requires Inv(s)
    ensures Inv(DeliverAll(s, events))
  {
    if events != [] {
      DeliverAllKeepsInv(s, events[..|events| - 1]);
      ApplyEventKeepsInv(DeliverAll(s, events[..|events| - 1]), events[|events| - 1]);
    }
  }
}
