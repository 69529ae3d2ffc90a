/** One full, delivered in any order and with any repetition, always ends the same way. */
module Confluence {
  import opened Wrappers
  import opened TextOrder
  import opened Identifiers
  import opened CatalogTypes
  import opened CatalogDigests
  import opened CatalogSnapshot
  import opened CatalogModel
  import opened CatalogPages
  import opened CatalogInvariants
  import opened CatalogRuns

  /** A full as its producer holds it: the documents of every page and the end manifest. */
  datatype Full = Full(identity: Identity, manifest: Manifest, pages: seq<seq<Document>>)

  function Table(f: Full): map<int, StagedPage> {
    map i | 0 <= i < |f.pages| :: StagedPage(f.pages[i], Sha256([CanonicalJson(f.pages[i])]))
  }

  /** A full its producer computed correctly, within the quotas. */
  ghost predicate ValidFull(f: Full) {
    && ValidIdentity(f.identity)
    && |f.pages| <= MAX_PAGES
    && (forall i :: 0 <= i < |f.pages| ==> forall d :: d in f.pages[i] ==> ValidDocument(d, SCOPE_LOCAL))
    && CompleteFull(f.manifest, PagesInOrder(Table(f)), TotalBytes(PagesInOrder(Table(f))))
  }

  /** The receiver has not seen the generation, is in its epoch, and no listed id is a remote video. */
  ghost predicate Receptive(s: State, f: Full) {
    && Sane(s) && s.scope.Some? && s.scope.value.epoch == f.identity.epoch
    && f.identity.generation > s.scope.value.highest
    && forall i, id :: i in Table(f) && id in Ids(Table(f)[i].documents) ==> !Foreign(s.documents, id)
  }

  // ----- deliveries -----

  /** An event arriving at a time. */
  datatype Delivery = Delivery(at: int, ev: CatalogEvent)

  datatype Part = PagePart(index: int) | EndPart | NoPart

  /** Which part of the full an event carries, in whatever spelling and envelope. */
  function PartOf(f: Full, ev: CatalogEvent): Part {
    if ev.eventId == NIL || ev.schemaVersion != 2 || !ev.occurredAtSet then NoPart
    else
      match ev.payload
      case PagePayload(id, page, raw, bytes) =>
        if id == f.identity && page.pageIndex in Table(f) && page.content == Table(f)[page.pageIndex].content
           && raw.Array? && raw.items == f.pages[page.pageIndex] && bytes <= MAX_REQUEST_BYTES
        then PagePart(page.pageIndex) else NoPart
      case EndPayload(id, m) => if id == f.identity && m == f.manifest then EndPart else NoPart
      case _ => NoPart
  }

  ghost function DeliverAt(s: State, d: Delivery): State {
    Deliver(s.(clock := d.at), d.ev)
  }

  ghost function Receive(s: State, ds: seq<Delivery>): State {
    if ds == [] then s else DeliverAt(Receive(s, ds[..|ds| - 1]), ds[|ds| - 1])
  }

  /** Deliveries of parts of f only, in time order, the last within 24 hours of the first. */
  predicate Transmission(f: Full, ds: seq<Delivery>) {
    && (forall k :: 0 <= k < |ds| ==> PartOf(f, ds[k].ev) != NoPart)
    && (forall j, k :: 0 <= j <= k < |ds| ==> ds[j].at <= ds[k].at < ds[0].at + EXPIRY)
  }

  /** Distinct parts seen so far, and when the last of them came. */
  datatype Progress = Progress(pages: set<int>, end: bool, at: int)

  predicate Covers(f: Full, p: Progress) {
    p.end && p.pages == Table(f).Keys
  }

  function Advance(f: Full, p: Progress, d: Delivery): Progress {
    if Covers(f, p) then p
    else
      match PartOf(f, d.ev)
      case PagePart(i) => Progress(p.pages + {i}, p.end, d.at)
      case EndPart => Progress(p.pages, true, d.at)
      case NoPart => p
  }

  function Seen(f: Full, ds: seq<Delivery>): Progress {
    if ds == [] then Progress({}, false, 0) else Advance(f, Seen(f, ds[..|ds| - 1]), ds[|ds| - 1])
  }

  function Restrict(f: Full, pages: set<int>): map<int, StagedPage> {
    map i | i in Table(f) && i in pages :: Table(f)[i]
  }

  // ----- the one outcome -----

  /** The state once the full has completed at a time. */
  ghost function Completed(s: State, f: Full, at: int): State
    requires s.scope.Some?
  {
    s.(documents := Projected(s.documents, ById(AllDocuments(PagesInOrder(Table(f)))), at),
       scope := Some(Scope(f.identity.epoch, f.identity.generation, f.identity.generation, Some(f.manifest))),
       pending := None)
  }

  /** The state while parts are missing: the live documents and the completed generation untouched. */
  ghost function Waiting(s: State, f: Full, p: Progress, first: int): State
    requires s.scope.Some?
  {
    var pages := Restrict(f, p.pages);
    s.(scope := Some(s.scope.value.(highest := f.identity.generation)),
       pending := Some(Pending(f.identity.epoch, f.identity.generation, first, if p.end then Some(f.manifest) else None,
                               TotalBytes(PagesInOrder(pages)), pages)))
  }

  ghost function Outcome(s: State, f: Full, p: Progress, first: int): State
    requires s.scope.Some?
  {
    if Covers(f, p) then Completed(s, f, p.at)
    else if p.pages == {} && !p.end then s
    else Waiting(s, f, p, first)
  }

  // ----- part of a table -----

  predicate Subtable(a: map<int, StagedPage>, b: map<int, StagedPage>) {
    forall i :: i in a ==> i in b && a[i] == b[i]
  }

  lemma {:induction false} SubtableBytes(a: map<int, StagedPage>, b: map<int, StagedPage>, n: nat)
    requires Subtable(a, b)
    ensures TotalBytes(PagesBelow(a, n)) <= TotalBytes(PagesBelow(b, n))
  {
    if n > 0 {
      SubtableBytes(a, b, n - 1);
      assert n - 1 !in b ==> PagesBelow(b, n) == PagesBelow(b, n - 1);
      assert n - 1 !in a ==> PagesBelow(a, n) == PagesBelow(a, n - 1);
      if n - 1 in b { LastBytes(b, n); }
      if n - 1 in a { LastBytes(a, n); }
    }
  }

  lemma {:induction false} SubtableIds(a: map<int, StagedPage>, b: map<int, StagedPage>, n: nat)
    requires Subtable(a, b) && ValidMembership(AllIds(PagesBelow(b, n)))
    ensures |AllIds(PagesBelow(a, n))| <= |AllIds(PagesBelow(b, n))|
    ensures ValidMembership(AllIds(PagesBelow(a, n)))
    ensures forall id :: id in AllIds(PagesBelow(a, n)) ==> id in AllIds(PagesBelow(b, n))
  {
    if n > 0 {
      assert n - 1 !in b ==> PagesBelow(b, n) == PagesBelow(b, n - 1);
      assert n - 1 !in a ==> PagesBelow(a, n) == PagesBelow(a, n - 1);
      if n - 1 in b {
        LastRow(b, n);
        SplitMembership(AllIds(PagesBelow(b, n - 1)), Ids(b[n - 1].documents));
      }
      SubtableIds(a, b, n - 1);
      if n - 1 in a {
        LastRow(a, n);
        JoinMembership(AllIds(PagesBelow(a, n - 1)), Ids(a[n - 1].documents));
      }
    }
  }

  lemma JoinMembership(a: seq<Uuid>, b: seq<Uuid>)
    requires ValidMembership(a) && ValidMembership(b) && forall id :: id in b ==> id !in a
    ensures ValidMembership(a + b)
  {
    assert a + [] == a && a + b + [] == a + b;
    MembershipInsert(a, b, []);
  }

  lemma LastBytes(pages: map<int, StagedPage>, n: nat)
    requires n > 0 && n - 1 in pages
    ensures TotalBytes(PagesBelow(pages, n)) == TotalBytes(PagesBelow(pages, n - 1)) + CanonicalLength(pages[n - 1].documents)
  {
    AppendBytes(PagesBelow(pages, n - 1), [StoredPage(n - 1, pages[n - 1])]);
    OneRow(StoredPage(n - 1, pages[n - 1]));
  }

  lemma TableFacts(f: Full)
    requires ValidFull(f)
    ensures IndexesInRange(Table(f)) && |Table(f)| == |f.pages| == f.manifest.pageCount
    ensures SoundPages(PagesInOrder(Table(f)))
    ensures forall i :: i in Table(f) ==> GoodPage(Table(f)[i]) && ValidMembership(Ids(Table(f)[i].documents))
  {
    CountTable(Table(f));
    var rows := PagesInOrder(Table(f));
    FullTableKeys(f, |f.pages|);
    assert (set i | i in Table(f) && i < |f.pages|) == Table(f).Keys;
    forall i | i in Table(f) ensures GoodPage(Table(f)[i]) && ValidMembership(Ids(Table(f)[i].documents)) {
      InTable(Table(f), StoredPage(i, Table(f)[i]));
      assert SoundPage(StoredPage(i, Table(f)[i]));
      OnePageMembership(Table(f), PageLimit(), i);
    }
  }

  lemma {:induction false} FullTableKeys(f: Full, n: nat)
    requires n <= |f.pages|
    ensures |set i | i in Table(f) && i < n| == n
  {
    if n > 0 {
      FullTableKeys(f, n - 1);
      assert (set i | i in Table(f) && i < n) == (set i | i in Table(f) && i < n - 1) + {n - 1};
    }
  }

  lemma {:induction false} OnePageMembership(pages: map<int, StagedPage>, n: nat, i: int)
    requires i in pages && 0 <= i < n && ValidMembership(AllIds(PagesBelow(pages, n)))
    ensures ValidMembership(Ids(pages[i].documents))
  {
    hide ValidMembership, AllIds, PagesBelow;
    WithoutLastRow(pages, n - 1);
    if i < n - 1 {
      OnePageMembership(pages, n - 1, i);
    }
  }

  /** Any set of the full's pages is admissible evidence. */
  lemma PartFacts(f: Full, pages: set<int>)
    requires ValidFull(f) && pages <= Table(f).Keys
    ensures var part := Restrict(f, pages);
            && part.Keys == pages && IndexesInRange(part) && |part| <= f.manifest.pageCount
            && (pages == Table(f).Keys <==> |part| == f.manifest.pageCount)
            && TotalBytes(PagesInOrder(part)) <= MAX_SNAPSHOT_BYTES
            && StagedCount(part) <= f.manifest.documentCount
            && ValidMembership(AllIds(PagesInOrder(part)))
  {
    TableFacts(f);
    var part := Restrict(f, pages);
    SubtableBytes(part, Table(f), PageLimit());
    SubtableIds(part, Table(f), PageLimit());
    assert part.Keys == pages;
    if pages != Table(f).Keys {
      SubsetCard(pages, Table(f).Keys);
    }
  }

  // ----- one delivery -----

  lemma AddStep(s: State, f: Full, p: Progress, first: int, now: int, i: int)
    requires ValidFull(f) && Receptive(s, f) && p.pages <= Table(f).Keys && i in Table(f)
    ensures AddPage(Waiting(s, f, p, first).(clock := now), i, Table(f)[i])
         == Ok(Waiting(s, f, p.(pages := p.pages + {i}), first).(clock := now))
  {
    hide ValidFull, PagesInOrder, Staged, Foreign, StagedCount;
    if i in p.pages {
      assert p.pages + {i} == p.pages;
    } else {
      NewPage(f, p.pages, i);
      NotForeign(s, f, i);
    }
  }

  lemma NotForeign(s: State, f: Full, i: int)
    requires Receptive(s, f) && i in Table(f)
    ensures forall id :: id in Ids(Table(f)[i].documents) ==> !Foreign(s.documents, id)
  {
    hide Foreign;
  }

  /** A page not yet staged fits beside any other pages of its full. */
  lemma NewPage(f: Full, pages: set<int>, i: int)
    requires ValidFull(f) && pages <= Table(f).Keys && i in Table(f) && i !in pages
    ensures var before, x := Restrict(f, pages), Table(f)[i];
            && before[i := x] == Restrict(f, pages + {i})
            && TotalBytes(PagesInOrder(Restrict(f, pages + {i}))) == TotalBytes(PagesInOrder(before)) + CanonicalLength(x.documents)
            && TotalBytes(PagesInOrder(before)) + CanonicalLength(x.documents) <= MAX_SNAPSHOT_BYTES
            && StagedCount(before) + |x.documents| <= f.manifest.documentCount <= MAX_DOCUMENTS
            && |before| + 1 <= f.manifest.pageCount <= MAX_PAGES && i < f.manifest.pageCount
            && forall id :: id in Ids(x.documents) ==> !Staged(before, id)
  {
    hide ValidFull, PagesInOrder, GoodPage, SoundPages, Staged;
    FullInQuota(f);
    TableFacts(f);
    PartFacts(f, pages);
    PartFacts(f, pages + {i});
    NotStaged(f, pages, i);
    var before := Restrict(f, pages);
    assert before[i := Table(f)[i]] == Restrict(f, pages + {i});
    AddPageTotals(before, i, Table(f)[i]);
    assert Restrict(f, pages + {i}).Keys == before.Keys + {i};
  }

  lemma FullInQuota(f: Full)
    requires ValidFull(f)
    ensures ValidManifest(f.manifest) && ManifestInQuota(f.manifest)
  {
  }

  lemma NotStaged(f: Full, pages: set<int>, i: int)
    requires ValidFull(f) && pages <= Table(f).Keys && i in Table(f) && i !in pages
    ensures forall id :: id in Ids(Table(f)[i].documents) ==> !Staged(Restrict(f, pages), id)
  {
    TableFacts(f);
    forall id | id in Ids(Table(f)[i].documents) ensures !Staged(Restrict(f, pages), id) {
      forall j | j in Restrict(f, pages) ensures id !in Ids(Restrict(f, pages)[j].documents) {
        if id in Ids(Table(f)[j].documents) {
          OnePagePerId(Table(f), PageLimit(), if i < j then i else j, if i < j then j else i, id);
        }
      }
    }
  }

  lemma DeclareStep(s: State, f: Full, p: Progress, first: int, now: int)
    requires ValidFull(f) && s.scope.Some? && p.pages <= Table(f).Keys
    ensures Declare(Waiting(s, f, p, first).(clock := now), f.manifest)
         == Ok(Waiting(s, f, p.(end := true), first).(clock := now))
  {
    hide CompleteFull, ValidDocument, ValidManifest;
    PartFacts(f, p.pages);
    TableFacts(f);
  }

  lemma CompleteStep(s: State, f: Full, p: Progress, first: int, now: int)
    requires ValidFull(f) && Receptive(s, f) && p.pages <= Table(f).Keys && p.at == now < first + EXPIRY
    requires p.pages != {} || p.end
    ensures Complete(Waiting(s, f, p, first).(clock := now), f.identity)
         == Ok(Outcome(s, f, p, first).(clock := now))
  {
    hide CompleteFull, ValidDocument, EpochUsed, Projected, PagesInOrder;
    PartFacts(f, p.pages);
    assert s.scope.value.completed < f.identity.generation;
    if Covers(f, p) {
      assert Restrict(f, p.pages) == Table(f);
      AllPublishable(s, f);
      assert LoadVerified(Waiting(s, f, p, first).(clock := now), f.identity) == Ok(Some(f.manifest));
    }
  }

  lemma AllPublishable(s: State, f: Full)
    requires ValidFull(f) && Receptive(s, f)
    ensures CompleteFull(f.manifest, PagesInOrder(Table(f)), TotalBytes(PagesInOrder(Table(f))))
    ensures !Rejected(s.documents, AllDocuments(PagesInOrder(Table(f))))
  {
    TableFacts(f);
    forall d | d in AllDocuments(PagesInOrder(Table(f))) ensures Publishable(d) && !Foreign(s.documents, d.video.id) {
      InAllDocuments(PagesInOrder(Table(f)), d);
      var r :| r in PagesInOrder(Table(f)) && d in Items(r.documents);
      InTable(Table(f), r);
      InIds(Items(r.documents), d.video.id);
    }
  }

  lemma AdmitAgain(s: State, f: Full, p: Progress, first: int, now: int)
    requires ValidFull(f) && s.scope.Some? && s.scope.value.epoch == f.identity.epoch && now < first + EXPIRY
    requires Sane(s) && f.identity.generation > s.scope.value.highest
    ensures var t := Waiting(s, f, p, first).(clock := now); Admit(t, f.identity) == Ok(t)
  {
    hide CompleteFull, ValidDocument, PagesInOrder, Restrict;
  }

  /** The event finds or creates its pending slot. */
  lemma AdmitStep(s: State, f: Full, p: Progress, first: int, now: int)
    requires ValidFull(f) && Receptive(s, f) && p.pages <= Table(f).Keys && !Covers(f, p) && now < first + EXPIRY
    requires p.pages == {} && !p.end ==> first == now
    ensures Admit(Outcome(s, f, p, first).(clock := now), f.identity) == Ok(Waiting(s, f, p, first).(clock := now))
  {
    if p.pages == {} && !p.end {
      assert Restrict(f, {}) == map[];
      PagesBelowStable(map[], 0, PageLimit());
    } else {
      AdmitAgain(s, f, p, first, now);
    }
    hide CompleteFull, ValidDocument, Waiting;
  }

  /** Staging a part of the full, once admitted, adds its page or declares its manifest. */
  lemma StageStep(f: Full, t: State, u: State, ev: CatalogEvent)
    requires ValidFull(f) && PartOf(f, ev) != NoPart && Admit(t, f.identity) == Ok(u)
    ensures ev.payload.identity == f.identity
    ensures PartOf(f, ev).PagePart? ==>
      Stage(t, ev.payload) == AddPage(u, PartOf(f, ev).index, Table(f)[PartOf(f, ev).index])
    ensures PartOf(f, ev).EndPart? ==> Stage(t, ev.payload) == Declare(u, f.manifest)
  {
    hide CompleteFull, ValidDocument, AddPage, Declare, Admit;
    TableFacts(f);
    FullInQuota(f);
    if PartOf(f, ev).PagePart? {
      var i := PartOf(f, ev).index;
      PageInQuota(f, i);
      assert StagedPage(Items(ev.payload.documents), ev.payload.page.content) == Table(f)[i];
    }
  }

  lemma PageInQuota(f: Full, i: int)
    requires ValidFull(f) && i in Table(f)
    ensures 0 < |f.pages[i]| <= MAX_DOCUMENTS
  {
    TableFacts(f);
    PartFacts(f, {i});
    var part := Restrict(f, {i});
    InTable(part, StoredPage(i, part[i]));
    PageWithinAll(PagesInOrder(part), StoredPage(i, part[i]));
  }

  lemma {:induction false} PageWithinAll(rows: seq<SnapshotPage>, r: SnapshotPage)
    requires r in rows
    ensures |Items(r.documents)| <= |AllIds(rows)|
  {
    if r != rows[|rows| - 1] {
      PageWithinAll(rows[..|rows| - 1], r);
    }
  }

  lemma DoneStep(s: State, f: Full, p: Progress, ev: CatalogEvent, now: int)
    requires ValidFull(f) && Receptive(s, f) && PartOf(f, ev) != NoPart
    ensures Deliver(Completed(s, f, p.at).(clock := now), ev) == Completed(s, f, p.at).(clock := now)
  {
    hide CompleteFull, ValidDocument, Projected, Deliver, Foreign;
    DeadRejected(Completed(s, f, p.at).(clock := now), ev);
  }

  lemma DeliveryStep(s: State, f: Full, p: Progress, first: int, d: Delivery)
    requires ValidFull(f) && Receptive(s, f) && s.scope.Some? && p.pages <= Table(f).Keys && d.at < first + EXPIRY
    requires p.pages == {} && !p.end ==> first == d.at
    requires PartOf(f, d.ev) != NoPart
    ensures DeliverAt(Outcome(s, f, p, first), d) == Outcome(s, f, Advance(f, p, d), first).(clock := d.at)
    ensures Advance(f, p, d).pages <= Table(f).Keys
  {
    hide ValidFull, Receptive, Completed, AddPage, Declare, Complete, Admit, Stage;
    if Covers(f, p) {
      DoneStep(s, f, p, d.ev, d.at);
    } else {
      var t, q := Outcome(s, f, p, first).(clock := d.at), Advance(f, p, d);
      AdmitStep(s, f, p, first, d.at);
      StageStep(f, t, Waiting(s, f, p, first).(clock := d.at), d.ev);
      if PartOf(f, d.ev).PagePart? {
        AddStep(s, f, p, first, d.at, PartOf(f, d.ev).index);
      } else {
        DeclareStep(s, f, p, first, d.at);
      }
      assert Stage(t, d.ev.payload) == Ok(Waiting(s, f, q, first).(clock := d.at));
      CompleteStep(s, f, q, first, d.at);
    }
  }

  // ----- any transmission -----

  /** After any transmission the state depends only on which parts have arrived and when the last new
      one did: until all have, the live documents and the completed generation are as they were; the
      last distinct part publishes the full; later replays change nothing. */
  lemma {:induction false} TransmissionOutcome(s: State, f: Full, ds: seq<Delivery>)
    requires ValidFull(f) && Receptive(s, f) && s.scope.Some? && Transmission(f, ds) && ds != []
    ensures Receive(s, ds) == Outcome(s, f, Seen(f, ds), ds[0].at).(clock := ds[|ds| - 1].at)
    ensures Seen(f, ds).pages <= Table(f).Keys
    ensures Seen(f, ds).pages != {} || Seen(f, ds).end
  {
    hide ValidFull, Receptive, Outcome, Deliver;
    var init, last := ds[..|ds| - 1], ds[|ds| - 1];
    assert PartOf(f, last.ev) != NoPart && last.at < ds[0].at + EXPIRY;
    if init == [] {
      StartOutcome(s, f, ds[0].at);
      DeliveryStep(s, f, Progress({}, false, 0), ds[0].at, last);
    } else {
      TransmissionPrefix(f, ds);
      TransmissionOutcome(s, f, init);
      ClockIgnored(Outcome(s, f, Seen(f, init), ds[0].at), init[|init| - 1].at, last);
      DeliveryStep(s, f, Seen(f, init), ds[0].at, last);
    }
  }

  lemma TransmissionPrefix(f: Full, ds: seq<Delivery>)
    requires Transmission(f, ds) && |ds| > 1
    ensures Transmission(f, ds[..|ds| - 1])
  {
    var init := ds[..|ds| - 1];
    forall k | 0 <= k < |init| ensures PartOf(f, init[k].ev) != NoPart { assert init[k] == ds[k]; }
    forall j, k | 0 <= j <= k < |init| ensures init[j].at <= init[k].at < init[0].at + EXPIRY {
      assert init[j] == ds[j] && init[k] == ds[k];
    }
  }

  lemma ClockIgnored(t: State, now: int, d: Delivery)
    ensures DeliverAt(t.(clock := now), d) == DeliverAt(t, d)
  {
    hide Deliver;
  }

  lemma StartOutcome(s: State, f: Full, now: int)
    requires s.scope.Some? && ValidFull(f)
    ensures Outcome(s, f, Progress({}, false, 0), now) == s
  {
    hide CompleteFull;
  }

  /** Equal up to the time a row was last indexed. */
  predicate SameButIndexedAt(a: Documents, b: Documents) {
    a.Keys == b.Keys && forall id :: id in a ==> b[id] == a[id].(indexedAt := b[id].indexedAt)
  }

  /** Confluence: two transmissions of one full, each covering all its parts in its own order with its
      own repetitions, end in the same authority, nothing pending, and the same documents. */
  lemma TransmissionsConfluent(s: State, f: Full, a: seq<Delivery>, b: seq<Delivery>)
    requires ValidFull(f) && Receptive(s, f)
    requires Transmission(f, a) && a != [] && Covers(f, Seen(f, a))
    requires Transmission(f, b) && b != [] && Covers(f, Seen(f, b))
    ensures var t, u := Receive(s, a), Receive(s, b);
            && t.scope == u.scope == Some(Scope(f.identity.epoch, f.identity.generation, f.identity.generation, Some(f.manifest)))
            && t.pending == u.pending == None
            && t.history == u.history && t.inbox == u.inbox
            && SameButIndexedAt(t.documents, u.documents)
            && (Seen(f, a).at == Seen(f, b).at ==> t.documents == u.documents)
  {
    TransmissionOutcome(s, f, a);
    TransmissionOutcome(s, f, b);
    hide ValidFull, Receptive, Receive, Seen, AllDocuments;
    SameProjection(s.documents, ById(AllDocuments(PagesInOrder(Table(f)))), Seen(f, a).at, Seen(f, b).at);
  }

  lemma SameProjection(documents: Documents, incoming: map<Uuid, Document>, x: int, y: int)
    ensures SameButIndexedAt(Projected(documents, incoming, x), Projected(documents, incoming, y))
  {
  }

  /** Nothing is published before the last distinct part arrives. */
  lemma NothingPublishedEarly(s: State, f: Full, ds: seq<Delivery>)
    requires ValidFull(f) && Receptive(s, f) && Transmission(f, ds) && ds != [] && !Covers(f, Seen(f, ds))
    ensures var t := Receive(s, ds);
            && t.documents == s.documents && t.history == s.history
            && t.scope == Some(s.scope.value.(highest := f.identity.generation))
  {
    TransmissionOutcome(s, f, ds);
  }
}
