/** Specification of the catalog protocol on values: the stored state, and for every transaction
    the state it commits. An Err means the transaction, or the event's savepoint, rolls back. */
module CatalogModel {
  import opened Wrappers
  import opened TextOrder
  import opened Identifiers
  import opened CatalogTypes
  import opened CatalogDigests
  import opened CatalogSnapshot

  // ----- stored state -----

  datatype Kind = Local | Remote

  datatype RowMeta = RowMeta(
    channelId: Option<Uuid>, channelHandle: Option<string>, channelName: Option<string>,
    ownerId: Option<Uuid>, title: string, description: string, tags: seq<string>,
    category: Option<string>, language: Option<string>, license: Option<string>,
    durationSeconds: Option<int>, isSensitive: bool, publishedAt: Option<int>, sourceUpdatedAt: int)

  /** A search.documents row. */
  datatype Row = Row(
    kind: Kind, meta: RowMeta, eligible: bool, suppressedReason: Option<string>,
    views: int, likes: int, indexedAt: int, reconcileRun: Option<Uuid>)

  type Documents = map<Uuid, Row>

  datatype StagedPage = StagedPage(documents: seq<Document>, content: Digest)

  /** The one catalog_snapshots row and its catalog_snapshot_pages. */
  datatype Pending = Pending(
    epoch: Uuid, generation: int, createdAt: int, manifest: Option<Manifest>,
    canonicalBytes: int, pages: map<int, StagedPage>)

  /** The catalog_scopes row; manifest holds the completed_* columns. */
  datatype Scope = Scope(epoch: Uuid, highest: int, completed: int, manifest: Option<Manifest>)

  datatype State = State(
    clock: int, history: map<Uuid, Option<Uuid>>, scope: Option<Scope>, pending: Option<Pending>,
    documents: Documents, inbox: set<Uuid>)

  datatype Error = Invalid | Quota | Conflict | AlreadyCompleted

  type Outcome = Result<State, Error>

  const EXPIRY := 86400  // 24 hours, in clock seconds

  // ----- epochs -----

  function SetEpoch(s: State, scope: string, epoch: Uuid, expected: Option<Uuid>): Outcome {
    if scope != SCOPE_LOCAL || epoch == NIL || expected == Some(NIL) then Err(Invalid)
    else if s.scope.Some? && s.scope.value.epoch == epoch then
      if epoch in s.history && s.history[epoch] == expected then Ok(s) else Err(Conflict)
    else if expected != (if s.scope.Some? then Some(s.scope.value.epoch) else None) then Err(Conflict)
    else if epoch in s.history then Err(Conflict)
    else Ok(s.(history := s.history[epoch := expected], pending := None, scope := Some(Scope(epoch, 0, 0, None))))
  }

  // ----- admission -----

  predicate Fresh(p: Pending, clock: int) {
    p.createdAt > clock - EXPIRY
  }

  predicate HasPending(s: State, id: Identity) {
    s.pending.Some? && s.pending.value.epoch == id.epoch && s.pending.value.generation == id.generation
    && Fresh(s.pending.value, s.clock)
  }

  function Admit(s: State, id: Identity): (r: Outcome)
    ensures r.Ok? ==> r.value.pending.Some? && r.value.scope.Some?
  {
    if !ValidIdentity(id) || s.scope.None? || s.scope.value.epoch != id.epoch then Err(Conflict)
    else
      var scope := s.scope.value;
      if id.generation == scope.completed then Err(AlreadyCompleted)
      else if id.generation < scope.highest then Err(Conflict)
      else if id.generation == scope.highest then (if HasPending(s, id) then Ok(s) else Err(Conflict))
      else Ok(s.(scope := Some(scope.(highest := id.generation)),
                 pending := Some(Pending(id.epoch, id.generation, s.clock, None, 0, map[]))))
  }

  // ----- staging -----

  /** Rows of the page table below an index, ordered by index. */
  function PagesBelow(pages: map<int, StagedPage>, n: nat): seq<SnapshotPage> {
    if n == 0 then []
    else PagesBelow(pages, n - 1) + (if n - 1 in pages then [StoredPage(n - 1, pages[n - 1])] else [])
  }

  function StoredPage(index: int, p: StagedPage): SnapshotPage {
    SnapshotPage(PageDigest(index, p.content), Jsonb(p.documents), |p.documents|)
  }

  function PageLimit(): (n: nat)
    ensures n == MAX_PAGES
  {
    MAX_PAGES
  }

  function PagesInOrder(pages: map<int, StagedPage>): seq<SnapshotPage> {
    PagesBelow(pages, PageLimit())
  }

  function StagedCount(pages: map<int, StagedPage>): nat {
    |AllIds(PagesInOrder(pages))|
  }

  predicate Staged(pages: map<int, StagedPage>, id: Uuid) {
    exists i :: i in pages && id in Ids(pages[i].documents)
  }

  predicate Foreign(documents: Documents, id: Uuid) {
    id in documents && documents[id].kind != Local
  }

  function StagePage(s: State, id: Identity, page: PageDigest, raw: RawDocuments): Outcome {
    if !(0 <= page.pageIndex < MAX_PAGES) then Err(Quota)
    else if DocumentsDigest(raw) != Some((Items(raw), page.content)) then Err(Conflict)
    else if Items(raw) == [] || !ValidMembership(Ids(Items(raw))) then Err(Conflict)
    else
      match Admit(s, id)
      case Err(e) => Err(e)
      case Ok(t) => AddPage(t, page.pageIndex, StagedPage(Items(raw), page.content))
  }

  function AddPage(t: State, index: int, page: StagedPage): Outcome
    requires t.pending.Some?
  {
    var p := t.pending.value;
    var count := StagedCount(p.pages) + |page.documents|;
    var bytes := p.canonicalBytes + CanonicalLength(page.documents);
    if index in p.pages then (if p.pages[index] == page then Ok(t) else Err(Conflict))
    else if bytes > MAX_SNAPSHOT_BYTES || count > MAX_DOCUMENTS || |p.pages| + 1 > MAX_PAGES then Err(Quota)
    else if p.manifest.Some? && (index >= p.manifest.value.pageCount || count > p.manifest.value.documentCount) then
      Err(Conflict)
    else if exists id :: id in Ids(page.documents) && (Staged(p.pages, id) || Foreign(t.documents, id)) then
      Err(Conflict)
    else Ok(t.(pending := Some(p.(pages := p.pages[index := page], canonicalBytes := bytes))))
  }

  function StageEnd(s: State, id: Identity, m: Manifest): Outcome {
    if !ValidManifest(m) then Err(Conflict)
    else if !ManifestInQuota(m) then Err(Quota)
    else
      match Admit(s, id)
      case Err(AlreadyCompleted) => if s.scope.Some? && s.scope.value.manifest == Some(m) then Ok(s) else Err(Conflict)
      case Err(e) => Err(e)
      case Ok(t) => Declare(t, m)
  }

  function Declare(t: State, m: Manifest): Outcome
    requires t.pending.Some?
  {
    var p := t.pending.value;
    if p.manifest.Some? then (if p.manifest == Some(m) then Ok(t) else Err(Conflict))
    else if |p.pages| > m.pageCount || StagedCount(p.pages) > m.documentCount
            || exists i :: i in p.pages && i >= m.pageCount then Err(Conflict)
    else Ok(t.(pending := Some(p.(manifest := Some(m)))))
  }

  // ----- completion -----

  /** Ok(None) means incomplete or already completed. */
  ghost function LoadVerified(s: State, id: Identity): Result<Option<Manifest>, Error> {
    if !ValidIdentity(id) || s.scope.None? || s.scope.value.epoch != id.epoch then Err(Conflict)
    else if id.generation == s.scope.value.completed then Ok(None)
    else if id.generation != s.scope.value.highest || !HasPending(s, id) then Err(Conflict)
    else
      var p := s.pending.value;
      if p.manifest.None? || |p.pages| < p.manifest.value.pageCount then Ok(None)
      else if CompleteFull(p.manifest.value, PagesInOrder(p.pages), p.canonicalBytes) then Ok(p.manifest)
      else Err(Conflict)
  }

  function AllDocuments(pages: seq<SnapshotPage>): seq<Document> {
    if pages == [] then [] else AllDocuments(pages[..|pages| - 1]) + Items(pages[|pages| - 1].documents)
  }

  /** The incoming documents by id. */
  function ById(docs: seq<Document>): map<Uuid, Document> {
    if docs == [] then map[] else ById(docs[..|docs| - 1])[docs[|docs| - 1].video.id := docs[|docs| - 1]]
  }

  predicate Publishable(d: Document) {
    d.video.kind == "local" && d.video.privacy == "public" && d.video.state == "published"
    && d.eligible && d.suppressedReason == None
  }

  function Frozen(v: Video): RowMeta {
    RowMeta(v.meta.channelId, v.meta.channelHandle, v.meta.channelName, v.meta.ownerId,
            v.meta.title, v.meta.description, if v.meta.tags.Some? then v.meta.tags.value else [],
            v.meta.category, v.meta.language, v.meta.license, v.meta.durationSeconds,
            v.meta.isSensitive, v.meta.publishedAt,
            if v.updatedAt.Some? then v.updatedAt.value else if v.createdAt.Some? then v.createdAt.value else 0)
  }

  /** What the last recheck refuses: an ineligible document, or one whose id is a remote video's. */
  predicate Rejected(documents: Documents, docs: seq<Document>) {
    (exists d :: d in docs && !Publishable(d)) || (exists d :: d in docs && Foreign(documents, d.video.id))
  }

  predicate ShowsFrozen(r: Row, d: Document) {
    r.kind == Local && r.meta == Frozen(d.video) && r.eligible && r.suppressedReason == None
  }

  /** A listed id after projection: a new row is seeded, a stale local row takes the frozen metadata
      and keeps its counters, anything else is left alone. */
  function ListedRow(live: Option<Row>, d: Document, now: int): Row {
    match live
    case None => Row(Local, Frozen(d.video), true, None, d.video.views, d.video.likes, now, None)
    case Some(r) =>
      if r.kind != Local || ShowsFrozen(r, d) then r
      else r.(meta := Frozen(d.video), eligible := true, suppressedReason := None, indexedAt := now)
  }

  /** An unlisted id after projection: a visible local row becomes an orphan. */
  function UnlistedRow(r: Row, now: int): Row {
    if r.kind == Local && r.eligible
    then r.(eligible := false, suppressedReason := Some("catalog_orphan"), indexedAt := now)
    else r
  }

  function Live(documents: Documents, id: Uuid): Option<Row> {
    if id in documents then Some(documents[id]) else None
  }

  function Projected(documents: Documents, incoming: map<Uuid, Document>, now: int): Documents {
    map id | id in documents.Keys + incoming.Keys ::
      if id in incoming then ListedRow(Live(documents, id), incoming[id], now) else UnlistedRow(documents[id], now)
  }

  ghost function Complete(s: State, id: Identity): Outcome {
    match LoadVerified(s, id)
    case Err(e) => Err(e)
    case Ok(None) => Ok(s)
    case Ok(Some(m)) =>
      if s.pending.None? || s.scope.None? then Err(Conflict)
      else
        var docs := AllDocuments(PagesInOrder(s.pending.value.pages));
        if Rejected(s.documents, docs) then Err(Conflict)
        else if s.scope.value.highest != id.generation || s.scope.value.completed >= id.generation then Err(Conflict)
        else Ok(s.(documents := Projected(s.documents, ById(docs), s.clock),
                   scope := Some(s.scope.value.(completed := id.generation, manifest := Some(m))),
                   pending := None))
  }

  // ----- catalog events -----

  datatype Payload =
    | PagePayload(identity: Identity, page: PageDigest, documents: RawDocuments, rawBytes: nat)
    | EndPayload(identity: Identity, manifest: Manifest)
    | Undecodable
    | UnsupportedType

  datatype CatalogEvent = CatalogEvent(eventId: Uuid, schemaVersion: int, occurredAtSet: bool, payload: Payload)

  /** The business checks of one page document. */
  predicate ValidDocument(d: Document, scope: string) {
    && d.eligible && d.suppressedReason == None
    && d.video.kind == scope && d.video.privacy == "public" && d.video.state == "published"
    && d.video.id != NIL && d.video.meta.channelId != Some(NIL) && d.video.meta.ownerId != Some(NIL)
    && d.video.views >= 0 && d.video.likes >= 0
    && (d.video.meta.durationSeconds.Some? ==> d.video.meta.durationSeconds.value >= 0)
    && (d.video.createdAt.Some? || d.video.updatedAt.Some?)
  }

  predicate ParsesAsPage(p: Payload)
    requires p.PagePayload?
  {
    && p.rawBytes <= MAX_REQUEST_BYTES
    && ValidIdentity(p.identity)
    && 0 <= p.page.pageIndex < MAX_PAGES
    && 0 < |Items(p.documents)| <= MAX_DOCUMENTS
    && (forall d :: d in Items(p.documents) ==> ValidDocument(d, p.identity.scope))
    && NoDup(Ids(Items(p.documents)))
    && DocumentsDigest(p.documents) == Some((Items(p.documents), p.page.content))
  }

  predicate ParsesAsEnd(p: Payload)
    requires p.EndPayload?
  {
    ValidIdentity(p.identity) && ValidManifest(p.manifest) && ManifestInQuota(p.manifest)
  }

  function Stage(s: State, payload: Payload): Outcome {
    match payload
    case PagePayload(id, page, raw, _) => if ParsesAsPage(payload) then StagePage(s, id, page, raw) else Err(Invalid)
    case EndPayload(id, m) => if ParsesAsEnd(payload) then StageEnd(s, id, m) else Err(Invalid)
    case _ => Err(Invalid)
  }

  /** One event inside its savepoint: stage, then try to complete. */
  ghost function ApplyEvent(s: State, ev: CatalogEvent): Outcome {
    if ev.eventId == NIL || ev.schemaVersion != 2 || !ev.occurredAtSet then Err(Invalid)
    else
      match Stage(s, ev.payload)
      case Err(e) => Err(e)
      case Ok(t) => Complete(t, ev.payload.identity)
  }

  /** The savepoint commits on success and rolls back on error. */
  ghost function Deliver(s: State, ev: CatalogEvent): State {
    match ApplyEvent(s, ev)
    case Ok(t) => t
    case Err(_) => s
  }

  ghost function DeliverAll(s: State, events: seq<CatalogEvent>): State {
    if events == [] then s else Deliver(DeliverAll(s, events[..|events| - 1]), events[|events| - 1])
  }

  const MAX_BATCH := 500

  ghost function IngestCatalog(s: State, events: seq<CatalogEvent>): State {
    if 0 < |events| <= MAX_BATCH then DeliverAll(s, events) else s
  }

  // ----- retention -----

  function Prune(s: State): State {
    if s.pending.Some? && !Fresh(s.pending.value, s.clock) then s.(pending := None) else s
  }

  // ----- what readers see -----

  ghost function EligibleLocal(documents: Documents): set<Uuid> {
    set id | id in documents && documents[id].kind == Local && documents[id].eligible
  }

  ghost function Eligible(documents: Documents): set<Uuid> {
    set id | id in documents && documents[id].eligible
  }
}
