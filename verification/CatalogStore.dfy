/** The receiver as the service runs it: tables updated statement by statement. Methods that stage or
    complete may leave a partly updated transaction behind an error, exactly as the SQL does; the
    savepoint of ApplyCatalogOne restores it. */
module CatalogStore {
  import opened Wrappers
  import opened TextOrder
  import opened Identifiers
  import opened CatalogTypes
  import opened CatalogDigests
  import opened CatalogSnapshot
  import opened CatalogModel
  import opened CatalogPages
  import opened CatalogInvariants
  import Legacy = LegacyEvents
  import Reads = CatalogReads

  datatype CatalogResult = CatalogResult(accepted: nat, failed: seq<(Uuid, Error)>)

  /** What a fallible method promises: the specified state, or the specified error. */
  ghost predicate Agrees(view: State, err: Option<Error>, spec: Outcome) {
    match spec
    case Ok(t) => err == None && view == t
    case Err(e) => err == Some(e)
  }

  // ----- batches: only accepted events count -----

  ghost function ErrorOf(s: State, ev: CatalogEvent): Option<Error> {
    match ApplyEvent(s, ev)
    case Ok(_) => None
    case Err(e) => Some(e)
  }

  /** The failures of a batch, in order. */
  ghost function Failures(s: State, events: seq<CatalogEvent>): seq<(Uuid, Error)> {
    if events == [] then []
    else
      var last := events[|events| - 1];
      var err := ErrorOf(DeliverAll(s, events[..|events| - 1]), last);
      Failures(s, events[..|events| - 1]) + (if err.Some? then [(last.eventId, err.value)] else [])
  }

  ghost function AcceptedEvents(s: State, events: seq<CatalogEvent>): seq<CatalogEvent> {
    if events == [] then []
    else
      var last := events[|events| - 1];
      var err := ErrorOf(DeliverAll(s, events[..|events| - 1]), last);
      AcceptedEvents(s, events[..|events| - 1]) + (if err.None? then [last] else [])
  }

  /** A batch commits what its accepted events alone would have committed, all of them accepted. */
  lemma {:induction false} BatchIsFoldOfAccepted(s: State, events: seq<CatalogEvent>)
    ensures DeliverAll(s, AcceptedEvents(s, events)) == DeliverAll(s, events)
    ensures Failures(s, AcceptedEvents(s, events)) == []
    ensures |AcceptedEvents(s, events)| + |Failures(s, events)| == |events|
  {
    hide ApplyEvent;
    if events != [] {
      var init, last := events[..|events| - 1], events[|events| - 1];
      BatchIsFoldOfAccepted(s, init);
      var accepted := AcceptedEvents(s, init);
      if ErrorOf(DeliverAll(s, init), last).None? {
        var longer := accepted + [last];
        assert AcceptedEvents(s, events) == longer;
        assert longer[..|longer| - 1] == accepted && longer[|longer| - 1] == last;
        assert DeliverAll(s, longer) == Deliver(DeliverAll(s, accepted), last);
      } else {
        assert AcceptedEvents(s, events) == accepted;
        assert Deliver(DeliverAll(s, init), last) == DeliverAll(s, init);
      }
    }
  }

  lemma InvCore(s: State)
    requires Inv(s)
    ensures Core(s)
  {
    hide Core;
  }

  class Store {
    var clock: int
    var history: map<Uuid, Option<Uuid>>
    var scope: Option<Scope>
    var pending: Option<Pending>
    var documents: Documents
    var inbox: set<Uuid>

    ghost function View(): State
      reads this
    {
      State(clock, history, scope, pending, documents, inbox)
    }

    constructor (clock: int, documents: Documents)
      ensures View() == State(clock, map[], None, None, documents, {})
      ensures Inv(View())
    {
      this.clock, this.documents := clock, documents;
      history, scope, pending, inbox := map[], None, None, {};
    }

    method SetCatalogEpoch(scopeName: string, epoch: Uuid, expected: Option<Uuid>) returns (err: Option<Error>)
      modifies this
      ensures Agrees(View(), err, SetEpoch(old(View()), scopeName, epoch, expected))
      ensures err.Some? ==> View() == old(View())
    {
      if scopeName != SCOPE_LOCAL || epoch == NIL || expected == Some(NIL) {
        return Some(Invalid);
      }
      if scope.Some? && scope.value.epoch == epoch {
        if epoch !in history || history[epoch] != expected {
          return Some(Conflict);
        }
        return None;
      }
      if (scope.Some? && expected != Some(scope.value.epoch)) || (scope.None? && expected.Some?) {
        return Some(Conflict);
      }
      if epoch in history {
        return Some(Conflict);
      }
      history := history[epoch := expected];
      pending := None;
      scope := Some(Scope(epoch, 0, 0, None));
      return None;
    }

    method AdmitCatalogGeneration(id: Identity) returns (err: Option<Error>)
      modifies this`scope, this`pending
      ensures Agrees(View(), err, Admit(old(View()), id))
      ensures err.Some? ==> View() == old(View())
    {
      if !ValidIdentity(id) {
        return Some(Conflict);
      }
      if scope.None? || scope.value.epoch != id.epoch {
        return Some(Conflict);
      }
      if id.generation == scope.value.completed {
        return Some(AlreadyCompleted);
      }
      if id.generation < scope.value.highest {
        return Some(Conflict);
      }
      if id.generation == scope.value.highest {
        var isPending := pending.Some? && pending.value.epoch == id.epoch
          && pending.value.generation == id.generation && pending.value.createdAt > clock - EXPIRY;
        return if isPending then None else Some(Conflict);
      }
      pending := None;
      scope := Some(scope.value.(highest := id.generation));
      pending := Some(Pending(id.epoch, id.generation, clock, None, 0, map[]));
      return None;
    }

    method StageCatalogPage(id: Identity, page: PageDigest, raw: RawDocuments) returns (err: Option<Error>)
      modifies this`scope, this`pending
      ensures Agrees(View(), err, StagePage(old(View()), id, page, raw))
    {
      hide SetDigest, StagedCount, Staged, Foreign, Fresh;
      if page.pageIndex < 0 || page.pageIndex >= MAX_PAGES {
        return Some(Quota);
      }
      var content := DocumentsDigest(raw);
      if content.None? || content.value.1 != page.content {
        return Some(Conflict);
      }
      var members := content.value.0;
      if members == [] {
        return Some(Conflict);
      }
      var ids := Ids(members);
      var membership := MembershipDigest(ids);
      if membership.None? {
        return Some(Conflict);
      }
      err := AdmitCatalogGeneration(id);
      if err.Some? {
        return;
      }
      var stored := StagedPage(members, page.content);
      if page.pageIndex in pending.value.pages {
        return if pending.value.pages[page.pageIndex] == stored then None else Some(Conflict);
      }
      var charged, pages := pending.value.canonicalBytes, |pending.value.pages|;
      var count := StagedCount(pending.value.pages);
      if charged + CanonicalLength(members) > MAX_SNAPSHOT_BYTES || count + |ids| > MAX_DOCUMENTS || pages + 1 > MAX_PAGES {
        return Some(Quota);
      }
      if pending.value.manifest.Some? && (page.pageIndex >= pending.value.manifest.value.pageCount
                                          || count + |ids| > pending.value.manifest.value.documentCount) {
        return Some(Conflict);
      }
      if exists x :: x in ids && (Staged(pending.value.pages, x) || Foreign(documents, x)) {
        return Some(Conflict);
      }
      pending := Some(pending.value.(pages := pending.value.pages[page.pageIndex := stored]));
      pending := Some(pending.value.(canonicalBytes := pending.value.canonicalBytes + CanonicalLength(members)));
      return None;
    }

    method StageCatalogEnd(id: Identity, manifest: Manifest) returns (err: Option<Error>)
      modifies this`scope, this`pending
      ensures Agrees(View(), err, StageEnd(old(View()), id, manifest))
    {
      if !ValidManifest(manifest) {
        return Some(Conflict);
      }
      if manifest.pageCount > MAX_PAGES || manifest.documentCount > MAX_DOCUMENTS {
        return Some(Quota);
      }
      var admission := AdmitCatalogGeneration(id);
      if admission == Some(AlreadyCompleted) {
        return if scope.value.manifest == Some(manifest) then None else Some(Conflict);
      }
      if admission.Some? {
        return admission;
      }
      if pending.value.manifest.Some? {
        return if pending.value.manifest == Some(manifest) then None else Some(Conflict);
      }
      var pages := pending.value.pages;
      if |pages| > manifest.pageCount || StagedCount(pages) > manifest.documentCount
         || exists i :: i in pages && i >= manifest.pageCount {
        return Some(Conflict);
      }
      pending := Some(pending.value.(manifest := Some(manifest)));
      return None;
    }

    /** Reads pending evidence; writes nothing. */
    method LoadVerifiedCatalogSnapshot(id: Identity) returns (r: Result<Option<Manifest>, Error>)
      requires pending.Some? ==> IndexesInRange(pending.value.pages)
      ensures r == LoadVerified(View(), id)
    {
      if !ValidIdentity(id) || scope.None? || scope.value.epoch != id.epoch {
        return Err(Conflict);
      }
      if id.generation == scope.value.completed {
        return Ok(None);
      }
      if id.generation != scope.value.highest {
        return Err(Conflict);
      }
      if pending.None? || pending.value.epoch != id.epoch || pending.value.generation != id.generation
         || !Fresh(pending.value, clock) {
        return Err(Conflict);
      }
      if pending.value.manifest.None? {
        return Ok(None);
      }
      var manifest := pending.value.manifest.value;
      var rows: seq<SnapshotPage> := [];
      for index: nat := 0 to PageLimit()
        invariant rows == PagesBelow(pending.value.pages, index)
      {
        if index in pending.value.pages {
          rows := rows + [StoredPage(index, pending.value.pages[index])];
        }
      }
      CountTable(pending.value.pages);
      if |rows| < manifest.pageCount {
        return Ok(None);
      }
      var ok := VerifySnapshot(manifest, rows, pending.value.canonicalBytes);
      return if ok then Ok(Some(manifest)) else Err(Conflict);
    }

    method CompleteCatalogSnapshot(id: Identity) returns (err: Option<Error>)
      requires pending.Some? ==> IndexesInRange(pending.value.pages)
      modifies this`scope, this`pending, this`documents
      ensures Agrees(View(), err, Complete(old(View()), id))
    {
      hide CompleteFull, PagesInOrder, Projected, Upserted, Orphaned, Rejected, IndexesInRange;
      var verified := LoadVerifiedCatalogSnapshot(id);
      if verified.Err? {
        return Some(verified.error);
      }
      if verified.value.None? {
        return None;
      }
      var incoming := AllDocuments(PagesInOrder(pending.value.pages));
      if Rejected(documents, incoming) {
        return Some(Conflict);
      }
      VerifiedIds(pending.value.manifest.value, PagesInOrder(pending.value.pages), pending.value.canonicalBytes);
      UpsertIncoming(incoming);
      HideUnlisted(incoming);
      TwoStatements(old(documents), ById(incoming), clock);
      if scope.value.highest != id.generation || scope.value.completed >= id.generation {
        return Some(Conflict);
      }
      scope := Some(scope.value.(completed := id.generation, manifest := verified.value));
      pending := None;
      return None;
    }

    /** INSERT ... ON CONFLICT DO UPDATE, row by row over distinct incoming ids. */
    method UpsertIncoming(incoming: seq<Document>)
      requires NoDup(Ids(incoming))
      modifies this`documents
      ensures documents == Upserted(old(documents), ById(incoming), clock)
    {
      ghost var before := documents;
      assert Upserted(before, map[], clock) == before;
      for i := 0 to |incoming|
        invariant documents == Upserted(before, ById(incoming[..i]), clock)
      {
        assert incoming[..i + 1][..i] == incoming[..i];
        var d := incoming[i];
        FreshAt(incoming, i);
        UpsertOne(before, ById(incoming[..i]), d, clock);
        documents := documents[d.video.id := ListedRow(Live(documents, d.video.id), d, clock)];
      }
      assert incoming[..|incoming|] == incoming;
    }

    /** The orphan UPDATE, visiting rows in no particular order. */
    method HideUnlisted(incoming: seq<Document>)
      modifies this`documents
      ensures documents == Orphaned(old(documents), ById(incoming).Keys, clock)
    {
      ghost var before := documents;
      var listed := ById(incoming).Keys;
      var rest := documents.Keys;
      while rest != {}
        invariant rest <= before.Keys == documents.Keys
        invariant forall id :: id in before ==>
          documents[id] == if id in rest || id in listed then before[id] else UnlistedRow(before[id], clock)
        decreases rest
      {
        var id :| id in rest;
        if id !in listed {
          documents := documents[id := UnlistedRow(documents[id], clock)];
        }
        rest := rest - {id};
      }
    }

    method ApplyCatalogOne(ev: CatalogEvent) returns (err: Option<Error>)
      requires Inv(View())
      modifies this`scope, this`pending, this`documents
      ensures View() == Deliver(old(View()), ev) && err == ErrorOf(old(View()), ev)
      ensures Inv(View())
    {
      if ev.eventId == NIL || ev.schemaVersion != 2 || !ev.occurredAtSet {
        return Some(Invalid);
      }
      hide Inv, Core, Complete, Stage, IndexesInRange;
      ApplyEventKeepsInv(View(), ev);
      assert Core(View()) by {
        InvCore(View());
      }
      var saved := (scope, pending, documents);
      err := StageEventPayload(ev.payload);
      if err.None? {
        StageKeepsCore(old(View()), ev.payload);
        CoreIndexes(View());
        err := CompleteCatalogSnapshot(ev.payload.identity);
      }
      if err.Some? {
        scope, pending, documents := saved.0, saved.1, saved.2;
      }
    }

    method StageEventPayload(payload: Payload) returns (err: Option<Error>)
      modifies this`scope, this`pending
      ensures Agrees(View(), err, Stage(old(View()), payload))
    {
      match payload {
        case PagePayload(id, page, raw, _) =>
          if !ParsesAsPage(payload) {
            return Some(Invalid);
          }
          err := StageCatalogPage(id, page, raw);
        case EndPayload(id, m) =>
          if !ParsesAsEnd(payload) {
            return Some(Invalid);
          }
          err := StageCatalogEnd(id, m);
        case _ =>
          err := Some(Invalid);
      }
    }

    method IngestCatalogBatch(events: seq<CatalogEvent>) returns (r: Option<CatalogResult>)
      requires Inv(View())
      modifies this`scope, this`pending, this`documents
      ensures View() == IngestCatalog(old(View()), events) && Inv(View())
      ensures r.Some? <==> 0 < |events| <= MAX_BATCH
      ensures r.Some? ==> r.value.failed == Failures(old(View()), events)
      ensures r.Some? ==> r.value.accepted + |r.value.failed| == |events|
    {
      hide Inv, Deliver, ErrorOf;
      if |events| == 0 || |events| > MAX_BATCH {
        return None;
      }
      var accepted, failed := 0, [];
      for i := 0 to |events|
        invariant View() == DeliverAll(old(View()), events[..i]) && Inv(View())
        invariant failed == Failures(old(View()), events[..i]) && accepted + |failed| == i
      {
        assert events[..i + 1][..i] == events[..i];
        var err := ApplyCatalogOne(events[i]);
        if err.Some? {
          failed := failed + [(events[i].eventId, err.value)];
        } else {
          accepted := accepted + 1;
        }
      }
      assert events[..|events|] == events;
      return Some(CatalogResult(accepted, failed));
    }

    method PruneCatalogSnapshots() returns (deleted: nat)
      modifies this`pending
      ensures View() == Prune(old(View()))
      ensures deleted == if old(pending) == pending then 0 else 1
    {
      deleted := 0;
      if pending.Some? && pending.value.createdAt <= clock - EXPIRY {
        pending := None;
        deleted := 1;
      }
    }

    /** One snapshot of the authority, filled in field by field; any scope but the local one is refused. */
    method ReadCatalogStatus(scopeName: string) returns (r: Result<Reads.Status, Error>)
      ensures r == if scopeName != SCOPE_LOCAL then Err(Conflict) else Ok(Reads.ReadStatus(View()))
    {
      if scopeName != SCOPE_LOCAL {
        return Err(Conflict);
      }
      var status := Reads.Status(None, "0", "0", false, None, false, 0, None);
      if scope.None? {
        return Ok(status);
      }
      var joined := pending.Some? && pending.value.epoch == scope.value.epoch && pending.value.generation == scope.value.highest;
      var foreignEligible := exists id :: id in documents && documents[id].kind != Local && documents[id].eligible;
      status := status.(epoch := Some(scope.value.epoch), foreignEligible := foreignEligible,
                        oldestStagedAt := if joined then Some(pending.value.createdAt) else None);
      status := status.(highest := Reads.GenerationText(scope.value.highest),
                        completed := Reads.GenerationText(scope.value.completed),
                        ready := scope.value.completed > 0);
      if status.ready {
        status := status.(manifest := scope.value.manifest);
      }
      if status.oldestStagedAt.Some? {
        status := status.(stagedSnapshots := 1);
      }
      return Ok(status);
    }

    method LegacyCatalogBlocked(events: seq<Legacy.Event>) returns (blocked: bool)
      ensures blocked == Legacy.Blocked(View(), events)
    {
      for i := 0 to |events|
        invariant forall k :: 0 <= k < i ==> !Legacy.IsLegacyCatalogType(events[k].body)
      {
        if Legacy.IsLegacyCatalogType(events[i].body) {
          assert events[i] in events;
          return scope.Some?;
        }
      }
      return false;
    }

    method IngestLegacyBatch(events: seq<Legacy.Event>) returns (r: Legacy.LegacyResult)
      modifies this`documents, this`inbox
      ensures View() == Legacy.Ingest(old(View()), events)
      ensures r == Legacy.ReportAll(old(View()), Legacy.Blocked(old(View()), events), events)
    {
      var blocked := LegacyCatalogBlocked(events);
      r := Legacy.LegacyResult(0, 0, 0);
      for i := 0 to |events|
        invariant View() == Legacy.IngestAll(old(View()), blocked, events[..i])
        invariant r == Legacy.ReportAll(old(View()), blocked, events[..i])
      {
        assert events[..i + 1][..i] == events[..i];
        if blocked && Legacy.IsLegacyCatalogType(events[i].body) {
          r := r.(failed := r.failed + 1);
          continue;
        }
        if events[i].eventId in inbox {
          r := r.(duplicates := r.duplicates + 1);
          continue;
        }
        var written := Legacy.Write(documents, events[i].body, clock);
        if written.None? {
          r := r.(failed := r.failed + 1);
        } else {
          documents, inbox := written.value, inbox + {events[i].eventId};
          r := r.(accepted := r.accepted + 1);
        }
      }
      assert events[..|events|] == events;
    }
  }

  // ----- the two projection statements -----

  function Upserted(documents: Documents, incoming: map<Uuid, Document>, now: int): Documents {
    map id | id in documents.Keys + incoming.Keys ::
      if id in incoming then ListedRow(Live(documents, id), incoming[id], now) else documents[id]
  }

  function Orphaned(documents: Documents, listed: set<Uuid>, now: int): Documents {
    map id | id in documents :: if id in listed then documents[id] else UnlistedRow(documents[id], now)
  }

  lemma TwoStatements(documents: Documents, incoming: map<Uuid, Document>, now: int)
    ensures Orphaned(Upserted(documents, incoming, now), incoming.Keys, now) == Projected(documents, incoming, now)
  {
  }

  lemma VerifiedIds(m: Manifest, rows: seq<SnapshotPage>, bytes: int)
    requires CompleteFull(m, rows, bytes)
    ensures NoDup(Ids(AllDocuments(rows)))
  {
    IdsOfAllDocuments(rows);
  }

  lemma FreshAt(incoming: seq<Document>, i: nat)
    requires i < |incoming| && NoDup(Ids(incoming))
    ensures incoming[i].video.id !in ById(incoming[..i])
  {
    ByIdKeys(incoming[..i]);
    forall k | 0 <= k < i ensures Ids(incoming[..i])[k] != incoming[i].video.id {
      assert Ids(incoming)[k] != Ids(incoming)[i];
    }
  }

  lemma UpsertOne(documents: Documents, incoming: map<Uuid, Document>, d: Document, now: int)
    requires d.video.id !in incoming
    ensures var done := Upserted(documents, incoming, now);
            done[d.video.id := ListedRow(Live(done, d.video.id), d, now)]
            == Upserted(documents, incoming[d.video.id := d], now)
  {
  }
}
