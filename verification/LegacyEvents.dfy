/** The v1 event writers of documents, and the gate that shuts them out once an epoch exists. */
module LegacyEvents {
  import opened Wrappers
  import opened Identifiers
  import opened CatalogTypes
  import opened CatalogModel

  datatype Body =
    | VideoUpsert(video: Video)
    | VideoSuppress(videoId: Uuid, reason: string)
    | VideoStats(videoId: Uuid, views: int, likes: int)
    | ChannelUpsert(channelId: Uuid, handle: string, name: string, ownerId: Option<Uuid>)
    | ChannelDelete(channelId: Uuid)
    | UserSuppress(userId: Uuid, unlisted: bool)
    | ReconcileBegin
    | ReconcilePage(run: Uuid, videos: seq<Video>)
    | ReconcileEnd
    | OtherType                           // behavioral, history, config or unknown: writes no document
    | BadPayload(catalogType: bool)       // a payload that does not decode, of a catalog type or not

  datatype Event = Event(eventId: Uuid, body: Body)

  predicate IsLegacyCatalogType(b: Body) {
    match b
    case VideoStats(_, _, _) => false
    case OtherType => false
    case BadPayload(catalogType) => catalogType
    case _ => true
  }

  // ----- document writers -----

  function SuppressionReason(privacy: string, state: string): Option<string> {
    if privacy != "public" then Some("privacy_" + (if privacy == "" then "unknown" else privacy))
    else if state != "published" then Some("state_" + (if state == "" then "unknown" else state))
    else None
  }

  /** UpsertDocument: every column is overwritten but the reconcile stamp of an unstamped write. The
      kind column admits two values only; a video without any timestamp takes the current time. */
  function Upsert(documents: Documents, v: Video, run: Option<Uuid>, now: int): Option<Documents> {
    if v.kind != "" && v.kind != "local" && v.kind != "remote" then None
    else
      var reason := SuppressionReason(v.privacy, v.state);
      var meta := if v.updatedAt.None? && v.createdAt.None? then Frozen(v).(sourceUpdatedAt := now) else Frozen(v);
      var stamp := if run.None? && v.id in documents then documents[v.id].reconcileRun else run;
      Some(documents[v.id := Row(if v.kind == "remote" then Remote else Local, meta, reason.None?, reason,
                                 v.views, v.likes, now, stamp)])
  }

  function UpsertAll(documents: Documents, videos: seq<Video>, run: Uuid, now: int): Option<Documents> {
    if videos == [] then Some(documents)
    else
      match UpsertAll(documents, videos[..|videos| - 1], run, now)
      case None => None
      case Some(ds) => Upsert(ds, videos[|videos| - 1], Some(run), now)
  }

  const EMPTY_META := RowMeta(None, None, None, None, "", "", [], None, None, None, None, false, None, 0)

  function Hide(r: Row, reason: string, now: int): Row {
    r.(eligible := false, suppressedReason := Some(reason), indexedAt := now)
  }

  function Write(documents: Documents, b: Body, now: int): Option<Documents> {
    match b
    case VideoUpsert(v) => Upsert(documents, v, None, now)
    case VideoSuppress(id, reason) =>
      Some(documents[id := if id in documents then Hide(documents[id], reason, now)
                           else Row(Local, EMPTY_META.(sourceUpdatedAt := now), false, Some(reason), 0, 0, now, None)])
    case VideoStats(id, views, likes) =>
      Some(if id in documents then documents[id := documents[id].(views := views, likes := likes, indexedAt := now)]
           else documents)
    case ChannelUpsert(channel, handle, name, owner) =>
      Some(map id | id in documents :: var r := documents[id];
           if r.meta.channelId == Some(channel)
           then r.(meta := r.meta.(channelHandle := Some(handle), channelName := Some(name), ownerId := owner), indexedAt := now)
           else r)
    case ChannelDelete(channel) =>
      Some(map id | id in documents :: var r := documents[id];
           if r.meta.channelId == Some(channel) then Hide(r, "channel_deleted", now) else r)
    case UserSuppress(owner, true) =>
      Some(map id | id in documents :: var r := documents[id];
           if r.meta.ownerId == Some(owner) && r.eligible then Hide(r, "owner_unlisted", now) else r)
    case UserSuppress(owner, false) =>
      Some(map id | id in documents :: var r := documents[id];
           if r.meta.ownerId == Some(owner) && r.suppressedReason == Some("owner_unlisted")
           then r.(eligible := true, suppressedReason := None, indexedAt := now) else r)
    case ReconcilePage(run, videos) => UpsertAll(documents, videos, run, now)
    case BadPayload(_) => None
    case _ => Some(documents)
  }

  // ----- ingest -----

  /** One deduplicated event: a receipt already held is a duplicate, an error leaves no receipt. */
  function ApplyOne(s: State, ev: Event): State {
    if ev.eventId in s.inbox then s
    else
      match Write(s.documents, ev.body, s.clock)
      case None => s
      case Some(ds) => s.(documents := ds, inbox := s.inbox + {ev.eventId})
  }

  predicate Blocked(s: State, events: seq<Event>) {
    s.scope.Some? && exists ev :: ev in events && IsLegacyCatalogType(ev.body)
  }

  function IngestOne(s: State, blocked: bool, ev: Event): State {
    if blocked && IsLegacyCatalogType(ev.body) then s else ApplyOne(s, ev)
  }

  function IngestAll(s: State, blocked: bool, events: seq<Event>): State {
    if events == [] then s else IngestOne(IngestAll(s, blocked, events[..|events| - 1]), blocked, events[|events| - 1])
  }

  function Ingest(s: State, events: seq<Event>): State {
    IngestAll(s, Blocked(s, events), events)
  }

  // ----- what a batch reports -----

  datatype LegacyResult = LegacyResult(accepted: nat, duplicates: nat, failed: nat)

  /** One event's count: a blocked type fails before its receipt is looked up. */
  function Report(s: State, blocked: bool, ev: Event): LegacyResult {
    if blocked && IsLegacyCatalogType(ev.body) then LegacyResult(0, 0, 1)
    else if ev.eventId in s.inbox then LegacyResult(0, 1, 0)
    else if Write(s.documents, ev.body, s.clock).None? then LegacyResult(0, 0, 1)
    else LegacyResult(1, 0, 0)
  }

  /** Each event counted once, in the state the ones before it left. */
  function ReportAll(s: State, blocked: bool, events: seq<Event>): LegacyResult {
    if events == [] then LegacyResult(0, 0, 0)
    else
      var init := events[..|events| - 1];
      var sum, last := ReportAll(s, blocked, init), Report(IngestAll(s, blocked, init), blocked, events[|events| - 1]);
      LegacyResult(sum.accepted + last.accepted, sum.duplicates + last.duplicates, sum.failed + last.failed)
  }

  /** The counts add up to the batch, and exactly the accepted events left new receipts. */
  lemma {:induction false} ReportAddsUp(s: State, blocked: bool, events: seq<Event>)
    ensures var r := ReportAll(s, blocked, events);
            && r.accepted + r.duplicates + r.failed == |events|
            && s.inbox <= IngestAll(s, blocked, events).inbox
            && |IngestAll(s, blocked, events).inbox| == |s.inbox| + r.accepted
  {
    hide Write;
    if events != [] {
      ReportAddsUp(s, blocked, events[..|events| - 1]);
    }
  }
}
