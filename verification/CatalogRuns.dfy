/** Runs of the whole service: any mix of catalog batches, legacy batches, epoch resets, pruning
    and the passing of time. */
module CatalogRuns {
  import opened Wrappers
  import opened TextOrder
  import opened Identifiers
  import opened CatalogTypes
  import opened CatalogDigests
  import opened CatalogSnapshot
  import opened CatalogModel
  import opened CatalogPages
  import opened CatalogInvariants
  import Legacy = LegacyEvents

  /** A committed transaction. Every writer of catalog state holds the catalog lock from before its
      first read to its commit, so these are atomic. A legacy batch of statistics alone takes no lock
      and may fall inside a catalog transaction, but moves only counters and receipts, and no catalog
      event reads or overwrites those of existing rows (CatalogIgnoresCounters). */
  datatype Step =
    | Catalog(events: seq<CatalogEvent>)
    | LegacyBatch(legacy: seq<Legacy.Event>)
    | ResetEpoch(scope: string, epoch: Uuid, expected: Option<Uuid>)
    | Retention
    | ForgetReceipts(ids: set<Uuid>)
    | Tick(elapsed: nat)

  ghost function Next(s: State, step: Step): State {
    match step
    case Catalog(events) => IngestCatalog(s, events)
    case LegacyBatch(events) => Legacy.Ingest(s, events)
    case ResetEpoch(scope, epoch, expected) =>
      (match SetEpoch(s, scope, epoch, expected) case Ok(t) => t case Err(_) => s)
    case Retention => Prune(s)
    case ForgetReceipts(ids) => s.(inbox := s.inbox - ids)
    case Tick(elapsed) => s.(clock := s.clock + elapsed)
  }

  ghost function Exec(s: State, steps: seq<Step>): State {
    if steps == [] then s else Next(Exec(s, steps[..|steps| - 1]), steps[|steps| - 1])
  }

  /** The dormant receiver: empty catalog tables beside any documents and receipts. */
  predicate Dormant(s: State) {
    s.history == map[] && s.scope.None? && s.pending.None?
  }

  // ----- how a state may differ from an earlier one -----

  predicate SameButStats(a: Row, b: Row) {
    b == a.(views := b.views, likes := b.likes, indexedAt := b.indexedAt)
  }

  /** Only counters moved. */
  predicate SameCatalog(a: Documents, b: Documents) {
    a.Keys == b.Keys && forall id :: id in a ==> SameButStats(a[id], b[id])
  }

  predicate SameRemote(a: Documents, b: Documents) {
    && (forall id :: id in a && a[id].kind == Remote ==> id in b && SameButStats(a[id], b[id]))
    && (forall id :: id in b && b[id].kind == Remote ==> id in a && a[id].kind == Remote)
  }

  predicate SameEpochLater(s: State, t: State)
    requires s.scope.Some? && t.scope.Some?
  {
    var a, b := s.scope.value, t.scope.value;
    && t.history == s.history
    && a.completed <= b.completed && a.highest <= b.highest
    && (a.completed == b.completed ==> a.manifest == b.manifest && SameCatalog(s.documents, t.documents))
    && (a.highest == b.highest && t.pending.Some? ==>
        s.pending.Some? && s.pending.value.createdAt == t.pending.value.createdAt)
  }

  /** t is reachable from s: history only grows, a used epoch never returns, and within one epoch both
      generations only rise while the catalog rows follow the completed one. */
  predicate Later(s: State, t: State) {
    && s.clock <= t.clock
    && (forall e :: e in s.history ==> e in t.history && t.history[e] == s.history[e])
    && (s.scope.Some? ==>
        && t.scope.Some?
        && SameRemote(s.documents, t.documents)
        && if t.scope.value.epoch == s.scope.value.epoch then SameEpochLater(s, t)
           else t.scope.value.epoch !in s.history)
  }

  predicate EpochUsed(s: State) {
    s.scope.Some? ==> s.scope.value.epoch in s.history
  }

  lemma CurrentEpochUsed(s: State)
    requires ChainOk(s)
    ensures EpochUsed(s)
  {
    if s.scope.Some? {
      var chain :| chain != [] && Chain(s.history, chain) && chain[|chain| - 1] == s.scope.value.epoch;
    }
  }

  lemma LaterTransitive(s: State, t: State, u: State)
    requires EpochUsed(s) && EpochUsed(t) && Later(s, t) && Later(t, u)
    ensures Later(s, u)
  {
    if s.scope.Some? {
      RemoteTransitive(s.documents, t.documents, u.documents);
      if s.scope.value.epoch == t.scope.value.epoch == u.scope.value.epoch {
        if s.scope.value.completed == u.scope.value.completed {
          CatalogTransitive(s.documents, t.documents, u.documents);
        }
      }
    }
  }

  lemma RemoteTransitive(a: Documents, b: Documents, c: Documents)
    requires SameRemote(a, b) && SameRemote(b, c)
    ensures SameRemote(a, c)
  {
  }

  lemma CatalogTransitive(a: Documents, b: Documents, c: Documents)
    requires SameCatalog(a, b) && SameCatalog(b, c)
    ensures SameCatalog(a, c)
  {
  }

  // ----- every step -----

  predicate Sane(s: State) {
    ScopeOk(s) && EpochUsed(s)
  }

  lemma AdmitLater(s: State, id: Identity)
    requires Sane(s) && Admit(s, id).Ok?
    ensures Later(s, Admit(s, id).value) && Sane(Admit(s, id).value)
  {
  }

  /** Staging moves the pending row only. */
  lemma StagedRow(s: State, payload: Payload)
    requires Stage(s, payload).Ok? && Admit(s, payload.identity).Ok?
    ensures var t, u := Admit(s, payload.identity).value, Stage(s, payload).value;
            u == t.(pending := u.pending) && u.pending.Some? && t.pending.Some?
            && u.pending.value.createdAt == t.pending.value.createdAt
            && u.pending.value.epoch == t.pending.value.epoch && u.pending.value.generation == t.pending.value.generation
  {
    hide Admit, ParsesAsPage, ParsesAsEnd, ValidManifest, ManifestInQuota, ValidMembership, DocumentsDigest, Staged, Foreign, StagedCount;
  }

  lemma UnadmittedStage(s: State, payload: Payload)
    requires Stage(s, payload).Ok? && Admit(s, payload.identity).Err?
    ensures Stage(s, payload).value == s
  {
    hide Admit, ParsesAsPage, ParsesAsEnd, ValidManifest, ManifestInQuota, ValidMembership, DocumentsDigest;
  }

  lemma StageLater(s: State, payload: Payload)
    requires Sane(s) && Stage(s, payload).Ok?
    ensures Later(s, Stage(s, payload).value) && Sane(Stage(s, payload).value)
  {
    if Admit(s, payload.identity).Ok? {
      AdmitLater(s, payload.identity);
      StagedRow(s, payload);
    } else {
      UnadmittedStage(s, payload);
    }
  }

  lemma CompleteLater(s: State, id: Identity)
    requires Sane(s) && Complete(s, id).Ok?
    ensures Later(s, Complete(s, id).value) && Sane(Complete(s, id).value)
  {
    if LoadVerified(s, id).value.Some? {
      var docs := AllDocuments(PagesInOrder(s.pending.value.pages));
      ByIdKeys(docs);
      forall x | x in ById(docs) ensures !Foreign(s.documents, x) {
        assert ById(docs)[x] in docs;
      }
      ProjectionKeepsRemote(s.documents, ById(docs), s.clock);
    }
  }

  lemma ProjectionKeepsRemote(documents: Documents, incoming: map<Uuid, Document>, now: int)
    requires forall id :: id in incoming ==> !Foreign(documents, id)
    ensures SameRemote(documents, Projected(documents, incoming, now))
  {
  }

  lemma DeliverLater(s: State, ev: CatalogEvent)
    requires Sane(s)
    ensures Later(s, Deliver(s, ev)) && Sane(Deliver(s, ev))
  {
    if ApplyEvent(s, ev).Ok? {
      var t := Stage(s, ev.payload).value;
      StageLater(s, ev.payload);
      CompleteLater(t, ev.payload.identity);
      LaterTransitive(s, t, Deliver(s, ev));
    }
  }

  lemma {:induction false} DeliverAllLater(s: State, events: seq<CatalogEvent>)
    requires Sane(s)
    ensures Later(s, DeliverAll(s, events)) && Sane(DeliverAll(s, events))
  {
    if events != [] {
      var init := DeliverAll(s, events[..|events| - 1]);
      DeliverAllLater(s, events[..|events| - 1]);
      DeliverLater(init, events[|events| - 1]);
      LaterTransitive(s, init, DeliverAll(s, events));
    }
  }

  /** Once an epoch exists a legacy batch can move counters and receipts only. */
  lemma {:induction false} LegacyMovesStatsOnly(s: State, blocked: bool, events: seq<Legacy.Event>)
    requires blocked || forall ev :: ev in events ==> !Legacy.IsLegacyCatalogType(ev.body)
    ensures var t := Legacy.IngestAll(s, blocked, events);
            t == s.(documents := t.documents, inbox := t.inbox) && SameCatalog(s.documents, t.documents)
  {
    if events != [] {
      assert events[|events| - 1] in events;
      LegacyMovesStatsOnly(s, blocked, events[..|events| - 1]);
    }
  }

  lemma {:induction false} LegacyKeepsTables(s: State, blocked: bool, events: seq<Legacy.Event>)
    ensures var t := Legacy.IngestAll(s, blocked, events);
            t == s.(documents := t.documents, inbox := t.inbox)
  {
    if events != [] {
      LegacyKeepsTables(s, blocked, events[..|events| - 1]);
    }
  }

  lemma SameCatalogEligible(a: Documents, b: Documents)
    requires SameCatalog(a, b)
    ensures EligibleLocal(a) == EligibleLocal(b) && Eligible(a) == Eligible(b) && SameRemote(a, b)
  {
  }

  lemma LegacyLater(s: State, events: seq<Legacy.Event>)
    ensures Later(s, Legacy.Ingest(s, events))
  {
    var t := Legacy.Ingest(s, events);
    LegacyKeepsTables(s, Legacy.Blocked(s, events), events);
    if s.scope.Some? {
      LegacyMovesStatsOnly(s, Legacy.Blocked(s, events), events);
      SameCatalogEligible(s.documents, t.documents);
    }
  }

  lemma LegacyKeepsInv(s: State, events: seq<Legacy.Event>)
    requires Inv(s)
    ensures Inv(Legacy.Ingest(s, events))
  {
    LegacyKeepsTables(s, Legacy.Blocked(s, events), events);
    if s.scope.Some? {
      LegacyMovesStatsOnly(s, Legacy.Blocked(s, events), events);
      SameCatalogEligible(s.documents, Legacy.Ingest(s, events).documents);
      SameCatalogLocal(s, Legacy.Ingest(s, events));
    }
  }

  lemma SameCatalogLocal(s: State, t: State)
    requires StagedLocal(s) && t.pending == s.pending && SameCatalog(s.documents, t.documents)
    ensures StagedLocal(t)
  {
    forall id ensures Foreign(t.documents, id) <==> Foreign(s.documents, id) {
      assert id in s.documents ==> SameButStats(s.documents[id], t.documents[id]);
    }
    hide Foreign;
    if s.pending.Some? {
      var pages := s.pending.value.pages;
      forall i, id | i in pages && id in Ids(pages[i].documents) ensures !Foreign(t.documents, id) {
        assert !Foreign(s.documents, id);
      }
    }
  }

  /** Once an epoch exists, a legacy batch of any events changes nothing but counters and receipts. */
  lemma LegacyBatchAfterInit(s: State, events: seq<Legacy.Event>)
    requires s.scope.Some?
    ensures var t := Legacy.Ingest(s, events);
            t == s.(documents := t.documents, inbox := t.inbox) && SameCatalog(s.documents, t.documents)
  {
    LegacyMovesStatsOnly(s, Legacy.Blocked(s, events), events);
  }

  lemma StepLater(s: State, step: Step)
    requires Sane(s)
    ensures Later(s, Next(s, step))
  {
    match step {
      case Catalog(events) => DeliverAllLater(s, events);
      case LegacyBatch(events) => LegacyLater(s, events);
      case _ =>
    }
  }

  lemma StepKeepsInv(s: State, step: Step)
    requires Inv(s)
    ensures Inv(Next(s, step))
  {
    match step {
      case Catalog(events) => DeliverAllKeepsInv(s, events);
      case LegacyBatch(events) => LegacyKeepsInv(s, events);
      case ResetEpoch(scope, epoch, expected) =>
        if SetEpoch(s, scope, epoch, expected).Ok? {
          SetEpochKeepsInv(s, scope, epoch, expected);
        }
      case _ =>
    }
  }

  // ----- theorems over runs -----

  lemma {:induction false} RunsKeepInv(s: State, steps: seq<Step>)
    requires Inv(s)
    ensures Inv(Exec(s, steps)) && Later(s, Exec(s, steps))
  {
    if steps != [] {
      var init := Exec(s, steps[..|steps| - 1]);
      RunsKeepInv(s, steps[..|steps| - 1]);
      CurrentEpochUsed(s);
      CurrentEpochUsed(init);
      StepKeepsInv(init, steps[|steps| - 1]);
      StepLater(init, steps[|steps| - 1]);
      LaterTransitive(s, init, Exec(s, steps));
    }
  }

  /** Whenever a completed generation is published, the visible local documents are exactly the
      membership of that full: their number is its document count, their digest is its membership
      digest, and no other set of ids has that digest. */
  lemma CompletedMembershipIsVisible(start: State, steps: seq<Step>)
    requires Dormant(start)
    ensures var s := Exec(start, steps);
            s.scope.Some? && s.scope.value.completed > 0 ==>
              var m, visible := s.scope.value.manifest, EligibleLocal(s.documents);
              && m.Some? && m.value.documentCount == |visible| && m.value.membership == SetDigest(visible)
              && forall ids: set<Uuid> :: SetDigest(ids) == m.value.membership ==> ids == visible
  {
    RunsKeepInv(start, steps);
    var s := Exec(start, steps);
    if s.scope.Some? && s.scope.value.completed > 0 {
      forall ids: set<Uuid> | SetDigest(ids) == s.scope.value.manifest.value.membership
        ensures ids == EligibleLocal(s.documents)
      {
        SetDigestInjective(ids, EligibleLocal(s.documents));
      }
    }
  }

  /** After every committed transaction a pending snapshot belongs to the current epoch and is its
      newest generation, past the completed one; its ledger is the sum over its pages; pages hold
      pairwise different ids; quotas and manifest bounds hold; and it is strictly incomplete. */
  lemma PendingIsCurrentAndIncomplete(start: State, steps: seq<Step>)
    requires Dormant(start)
    ensures var s := Exec(start, steps);
            s.pending.Some? ==>
              var p, rows := s.pending.value, PagesInOrder(s.pending.value.pages);
              && s.scope.Some? && p.epoch == s.scope.value.epoch
              && p.generation == s.scope.value.highest > s.scope.value.completed
              && p.canonicalBytes == TotalBytes(rows) <= MAX_SNAPSHOT_BYTES
              && StagedCount(p.pages) <= MAX_DOCUMENTS && |p.pages| <= MAX_PAGES
              && (forall i, j, id :: i in p.pages && j in p.pages && id in Ids(p.pages[i].documents)
                                     && id in Ids(p.pages[j].documents)
                   ==> i == j)
              && (p.manifest.Some? ==>
                  && (forall i :: i in p.pages ==> i < p.manifest.value.pageCount)
                  && StagedCount(p.pages) <= p.manifest.value.documentCount
                  && |p.pages| < p.manifest.value.pageCount)
  {
    RunsKeepInv(start, steps);
    var s := Exec(start, steps);
    if s.pending.Some? {
      forall i, j, id | i in s.pending.value.pages && j in s.pending.value.pages
                        && id in Ids(s.pending.value.pages[i].documents) && id in Ids(s.pending.value.pages[j].documents)
        ensures i == j
      {
        OnePagePerId(s.pending.value.pages, PageLimit(), if i <= j then i else j, if i <= j then j else i, id);
      }
    }
  }

  lemma {:induction false} OnePagePerId(pages: map<int, StagedPage>, n: nat, i: int, j: int, id: Uuid)
    requires ValidMembership(AllIds(PagesBelow(pages, n)))
    requires i in pages && j in pages && 0 <= i <= j < n
    requires id in Ids(pages[i].documents) && id in Ids(pages[j].documents)
    ensures i == j
  {
    hide ValidMembership, PagesBelow, AllIds;
    WithoutLastRow(pages, n - 1);
    if j < n - 1 {
      OnePagePerId(pages, n - 1, i, j, id);
    } else if i < j {
      StagedBelow(pages, n - 1, i, id);
    }
  }

  /** The predecessor links are one linear chain of every epoch ever used, headed by the current
      one, and (chain length, highest, completed) never moves backwards. */
  lemma AuthorityOnlyAdvances(start: State, before: seq<Step>, after: seq<Step>)
    requires Dormant(start)
    ensures var s, t := Exec(start, before), Exec(Exec(start, before), after);
            ChainOk(s) && ChainOk(t) && AuthorityAtMost(s, t)
  {
    RunsKeepInv(start, before);
    RunsKeepInv(Exec(start, before), after);
    LaterAdvances(Exec(start, before), Exec(Exec(start, before), after));
  }

  predicate AuthorityAtMost(s: State, t: State) {
    || |s.history| < |t.history|
    || (&& s.history == t.history
        && (s.scope.Some? ==>
          && t.scope.Some? && s.scope.value.epoch == t.scope.value.epoch
          && s.scope.value.highest <= t.scope.value.highest
          && s.scope.value.completed <= t.scope.value.completed))
  }

  lemma LaterAdvances(s: State, t: State)
    requires ChainOk(t) && Later(s, t)
    ensures AuthorityAtMost(s, t)
  {
    CurrentEpochUsed(t);
    assert s.history.Keys <= t.history.Keys;
    if s.history.Keys == t.history.Keys {
      assert s.history == t.history;
    } else {
      SubsetCard(s.history.Keys, t.history.Keys);
    }
  }

  // ----- when completion can fail -----

  /** What staging an event for the pending generation leaves in place. */
  lemma StagedIsCurrent(s: State, payload: Payload)
    requires Core(s) && Incomplete(s) && Stage(s, payload).Ok?
    ensures var t := Stage(s, payload).value;
            Core(t) && (t.pending.Some? && !Incomplete(t) ==>
              && ValidIdentity(payload.identity) && HasPending(t, payload.identity)
              && t.scope.Some? && t.scope.value.epoch == payload.identity.epoch
              && t.scope.value.highest == payload.identity.generation > t.scope.value.completed)
  {
    StageKeepsCore(s, payload);
    hide Core, Stage, Admit, ValidIdentity;
    if Admit(s, payload.identity).Ok? {
      AdmitIsCurrent(s, payload.identity);
      StagedRow(s, payload);
    } else {
      UnadmittedStage(s, payload);
    }
  }

  lemma AdmitIsCurrent(s: State, id: Identity)
    requires Core(s) && Admit(s, id).Ok?
    ensures var t := Admit(s, id).value;
            && ValidIdentity(id) && HasPending(t, id) && t.scope.Some? && t.scope.value.epoch == id.epoch
            && t.scope.value.highest == id.generation > t.scope.value.completed
  {
    hide PagesOk, ManifestOk, Heads, ProjectionOk, StagedLocal;
  }

  /** In any run, once an event brings a declared snapshot to its page count, completing it in the same
      transaction fails exactly on the document count or one of the two manifest digests: the recheck of
      eligibility and ownership, the fence and the byte ledger never stand in the way. */
  lemma CompletionFailsOnEvidenceOnly(start: State, steps: seq<Step>, payload: Payload)
    requires Dormant(start) && Stage(Exec(start, steps), payload).Ok?
    requires var t := Stage(Exec(start, steps), payload).value; t.pending.Some? && !Incomplete(t)
    ensures var t := Stage(Exec(start, steps), payload).value;
            var m, rows := t.pending.value.manifest.value, PagesInOrder(t.pending.value.pages);
            && Contiguous(PageDigests(rows), 0)
            && (Complete(t, payload.identity).Ok? <==>
                && |AllIds(rows)| == m.documentCount
                && SetDigest(Elems(AllIds(rows))) == m.membership
                && Sha256(PageLines(PageDigests(rows), 0)) == m.pages)
            && (Complete(t, payload.identity).Ok? ==>
                var u := Complete(t, payload.identity).value;
                u.scope.Some? && u.scope.value.completed == payload.identity.generation && u.scope.value.manifest == Some(m))
  {
    RunsKeepInv(start, steps);
    var s := Exec(start, steps);
    InvParts(s);
    StagedIsCurrent(s, payload);
    hide Stage, Core, Complete, Incomplete, ValidIdentity, HasPending;
    CurrentCompletes(Stage(s, payload).value, payload.identity);
  }

  lemma InvParts(s: State)
    requires Inv(s)
    ensures Core(s) && Incomplete(s)
  {
    hide Core, Incomplete;
  }

  lemma CurrentCompletes(t: State, id: Identity)
    requires Core(t) && t.pending.Some? && !Incomplete(t)
    requires ValidIdentity(id) && HasPending(t, id) && t.scope.Some? && t.scope.value.epoch == id.epoch
    requires t.scope.value.highest == id.generation > t.scope.value.completed
    ensures var m, rows := t.pending.value.manifest.value, PagesInOrder(t.pending.value.pages);
            && Contiguous(PageDigests(rows), 0)
            && (Complete(t, id).Ok? <==>
                && |AllIds(rows)| == m.documentCount
                && SetDigest(Elems(AllIds(rows))) == m.membership
                && Sha256(PageLines(PageDigests(rows), 0)) == m.pages)
            && (Complete(t, id).Ok? ==>
                Complete(t, id).value.scope == Some(t.scope.value.(completed := id.generation, manifest := Some(m))))
  {
    PendingEvidence(t);
    CountedPagesSuffice(t.pending.value, t.pending.value.manifest.value);
    RecheckNeverRejects(t);
    hide CompleteFull, PagesInOrder, Rejected, Core, ValidIdentity, HasPending, Projected, PagesOk, ManifestOk, StagedOk, StagedLocal, AllDocuments;
    assert LoadVerified(t, id) ==
      if CompleteFull(t.pending.value.manifest.value, PagesInOrder(t.pending.value.pages), t.pending.value.canonicalBytes)
      then Ok(t.pending.value.manifest) else Err(Conflict);
    hide LoadVerified;
  }

  lemma PendingEvidence(t: State)
    requires Core(t) && t.pending.Some?
    ensures StagedOk(t) && StagedLocal(t) && PagesOk(t.pending.value) && ManifestOk(t.pending.value)
  {
    hide PagesOk, ManifestOk, Heads, ProjectionOk, StagedLocal;
  }

  // ----- counters beside the lock -----

  /** Two states alike but for counters and receipts: what a batch of statistics moves. */
  predicate SameButCounters(s: State, t: State) {
    t == s.(documents := t.documents, inbox := t.inbox) && SameCatalog(s.documents, t.documents)
  }

  lemma SameForeign(a: Documents, b: Documents)
    requires SameCatalog(a, b)
    ensures forall id :: Foreign(a, id) <==> Foreign(b, id)
  {
    forall id ensures Foreign(a, id) <==> Foreign(b, id) {
      assert id in a ==> SameButStats(a[id], b[id]);
    }
  }

  /** Projection neither reads nor decides on the counters of existing rows. */
  lemma ProjectionIgnoresCounters(a: Documents, b: Documents, incoming: map<Uuid, Document>, now: int)
    requires SameCatalog(a, b)
    ensures SameCatalog(Projected(a, incoming, now), Projected(b, incoming, now))
  {
    forall id | id in a.Keys + incoming.Keys
      ensures SameButStats(Projected(a, incoming, now)[id], Projected(b, incoming, now)[id])
    {
      assert id in a ==> SameButStats(a[id], b[id]);
      hide SameCatalog;
      if id in incoming {
        ListedIgnoresCounters(Live(a, id), Live(b, id), incoming[id], now);
      } else {
        UnlistedIgnoresCounters(a[id], b[id], now);
      }
      hide SameButStats, ListedRow, UnlistedRow;
    }
  }

  lemma ListedIgnoresCounters(x: Option<Row>, y: Option<Row>, d: Document, now: int)
    requires if x.Some? then y.Some? && SameButStats(x.value, y.value) else y.None?
    ensures SameButStats(ListedRow(x, d, now), ListedRow(y, d, now))
  {
    hide Frozen;
  }

  lemma UnlistedIgnoresCounters(x: Row, y: Row, now: int)
    requires SameButStats(x, y)
    ensures SameButStats(UnlistedRow(x, now), UnlistedRow(y, now))
  {
  }

  /** A catalog event is accepted, and does the same, whatever counters the rows hold: it leaves alike
      states alike. A statistics write beside the lock can show in counters only. */
  lemma CatalogIgnoresCounters(s: State, t: State, ev: CatalogEvent)
    requires SameButCounters(s, t)
    ensures SameButCounters(Deliver(s, ev), Deliver(t, ev))
    ensures ApplyEvent(s, ev).Ok? <==> ApplyEvent(t, ev).Ok?
  {
    StageIgnoresCounters(s, t, ev.payload);
    if Stage(s, ev.payload).Ok? {
      CompleteIgnoresCounters(Stage(s, ev.payload).value, Stage(t, ev.payload).value, ev.payload.identity);
    }
    hide Stage, Complete, SameCatalog;
  }

  lemma StageIgnoresCounters(s: State, t: State, payload: Payload)
    requires SameButCounters(s, t)
    ensures Stage(s, payload).Ok? <==> Stage(t, payload).Ok?
    ensures Stage(s, payload).Ok? ==> SameButCounters(Stage(s, payload).value, Stage(t, payload).value)
  {
    if payload.PagePayload? || payload.EndPayload? {
      AdmitIgnoresCounters(s, t, payload.identity);
    }
    hide SameButCounters, ParsesAsPage, ParsesAsEnd, ValidManifest, ValidMembership, Admit, AddPage, Declare;
    match payload {
      case PagePayload(id, page, raw, _) =>
        if Admit(s, id).Ok? {
          AddPageIgnoresCounters(Admit(s, id).value, Admit(t, id).value, page.pageIndex, StagedPage(Items(raw), page.content));
        }
      case EndPayload(id, m) =>
        SameScopes(s, t);
        if Admit(s, id).Ok? {
          DeclareIgnoresCounters(Admit(s, id).value, Admit(t, id).value, m);
        }
      case _ =>
    }
  }

  lemma SameScopes(s: State, t: State)
    requires SameButCounters(s, t)
    ensures s.scope == t.scope && s.pending == t.pending
  {
    hide SameCatalog;
  }

  lemma AdmitIgnoresCounters(s: State, t: State, id: Identity)
    requires SameButCounters(s, t)
    ensures Admit(s, id).Ok? <==> Admit(t, id).Ok?
    ensures Admit(s, id).Ok? ==> SameButCounters(Admit(s, id).value, Admit(t, id).value)
    ensures Admit(s, id).Err? ==> Admit(t, id).error == Admit(s, id).error
  {
    hide SameCatalog, ValidIdentity;
  }

  lemma AddPageIgnoresCounters(s: State, t: State, index: int, page: StagedPage)
    requires SameButCounters(s, t) && s.pending.Some? && t.pending.Some?
    ensures AddPage(s, index, page).Ok? <==> AddPage(t, index, page).Ok?
    ensures AddPage(s, index, page).Ok? ==> SameButCounters(AddPage(s, index, page).value, AddPage(t, index, page).value)
  {
    SameForeign(s.documents, t.documents);
    hide SameCatalog, Foreign, Staged, StagedCount;
  }

  lemma DeclareIgnoresCounters(s: State, t: State, m: Manifest)
    requires SameButCounters(s, t) && s.pending.Some? && t.pending.Some?
    ensures Declare(s, m).Ok? <==> Declare(t, m).Ok?
    ensures Declare(s, m).Ok? ==> SameButCounters(Declare(s, m).value, Declare(t, m).value)
  {
    hide SameCatalog, StagedCount;
  }

  lemma CompleteIgnoresCounters(s: State, t: State, id: Identity)
    requires SameButCounters(s, t)
    ensures Complete(s, id).Ok? <==> Complete(t, id).Ok?
    ensures Complete(s, id).Ok? ==> SameButCounters(Complete(s, id).value, Complete(t, id).value)
  {
    LoadIgnoresCounters(s, t, id);
    SameScopes(s, t);
    if s.pending.Some? {
      var docs := AllDocuments(PagesInOrder(s.pending.value.pages));
      SameRejected(s.documents, t.documents, docs);
      ProjectionIgnoresCounters(s.documents, t.documents, ById(docs), s.clock);
    }
    hide SameCatalog, Rejected, LoadVerified, PagesInOrder, Projected, AllDocuments, ById;
  }

  lemma SameRejected(a: Documents, b: Documents, docs: seq<Document>)
    requires SameCatalog(a, b)
    ensures Rejected(a, docs) <==> Rejected(b, docs)
  {
    SameForeign(a, b);
    hide Foreign, Publishable, SameCatalog;
  }

  lemma LoadIgnoresCounters(s: State, t: State, id: Identity)
    requires SameButCounters(s, t)
    ensures LoadVerified(s, id) == LoadVerified(t, id)
  {
    hide SameCatalog, CompleteFull, PagesInOrder, ValidIdentity, Fresh;
  }

  // ----- dead generations -----

  /** A generation that can no longer be observed: its epoch was replaced, a newer generation was
      seen, or it is the newest but its pending row is completed, pruned or expired. */
  predicate Dead(s: State, id: Identity) {
    && id.epoch in s.history && s.scope.Some?
    && (id.epoch == s.scope.value.epoch ==>
        id.generation < s.scope.value.highest || (id.generation == s.scope.value.highest && !HasPending(s, id)))
  }

  /** No event of a dead generation changes anything, now or at any later point of any run. */
  lemma DeadGenerationsStayDead(s: State, steps: seq<Step>, ev: CatalogEvent)
    requires Inv(s)
    requires (ev.payload.PagePayload? || ev.payload.EndPayload?) && Dead(s, ev.payload.identity)
    ensures Deliver(Exec(s, steps), ev) == Exec(s, steps)
  {
    RunsKeepInv(s, steps);
    CurrentEpochUsed(s);
    DeadLater(s, Exec(s, steps), ev.payload.identity);
    DeadRejected(Exec(s, steps), ev);
  }

  lemma DeadLater(s: State, t: State, id: Identity)
    requires Dead(s, id) && Later(s, t) && StagedOk(s) && StagedOk(t)
    ensures Dead(t, id)
  {
  }

  lemma DeadRejected(t: State, ev: CatalogEvent)
    requires (ev.payload.PagePayload? || ev.payload.EndPayload?) && Dead(t, ev.payload.identity)
    ensures Deliver(t, ev) == t
  {
    hide AddPage, Declare, CompleteFull, ParsesAsPage, ParsesAsEnd, ValidManifest, HasPending, ValidMembership;
    var id := ev.payload.identity;
    DeadAdmission(t, id);
    if Stage(t, ev.payload).Ok? {
      assert Stage(t, ev.payload).value == t;
      assert LoadVerified(t, id) == Ok(None);
    }
  }

  lemma DeadAdmission(t: State, id: Identity)
    requires Dead(t, id)
    ensures Admit(t, id) == Err(Conflict) || (Admit(t, id) == Err(AlreadyCompleted) && LoadVerified(t, id) == Ok(None))
  {
    hide CompleteFull;
  }
}
