# Verified model of vidra-search

vidra-search keeps a search index of videos in PostgreSQL and Redis. This project models the parts of it
whose correctness is a matter of protocol or of arithmetic over whole runs, and proves what they promise.

**The catalog snapshot protocol.** A producer sends the pages and the end manifest of a numbered full
observation ("generation") inside an epoch, in any order and with replays. The receiver admits the newest
generation, stages immutable pages under quotas, verifies the whole set, projects it onto the live documents
and publishes a completion fence, all in one transaction. Epochs are reset by compare-and-swap with permanent
history, expired pending data is pruned, and once an epoch exists the older event writers are shut out. HTTP
readers read the fence before and after their queries, and the suggestion cache is keyed by it.

- `Identifiers`, `CatalogDigests`, `CatalogSnapshot`: identities, hashed preimages, manifest and snapshot checks.
- `CatalogModel`, `LegacyEvents`: for each transaction, the state it commits. `CatalogStore` is the receiver
  as a class whose methods update the tables statement by statement, each proved equal to that specification.
- `CatalogPages`, `CatalogInvariants`, `CatalogRuns`: what every transaction keeps, and theorems over runs that
  mix catalog batches, legacy batches, epoch resets, pruning, receipt expiry and the clock.
- `CatalogEffects`, `Confluence`: the exact effect of publishing, and delivery in any order and repetition.
- `CatalogReads`, `SuggestionCache`: fenced readers interleaved with committing writers.

**Ranking, counting and paging.** `Ndcg` (evaluation metric), `Trending` (decayed scores), `SubjectFloor` and
`Covisitation` (k-anonymous neighbor index), `Reevaluation` (suggestibility) and `ModerationRuns` (its writers
interleaved with bans), `Rerank` (creator penalty), `Blend` (suggestions), `RecallPaging` (recall window). `TextOrder`
and `Sorting` hold shared facts about ordered text, stable sorting and permutations.

Every writer of catalog state takes one advisory lock before its first read (`internal/store/catalog_epoch.go:21-24`),
so a run is a sequence of whole transactions. The exception is a legacy batch of statistics alone, which takes no
lock (`internal/event/catalog_legacy.go:20-36`) and may commit inside a catalog transaction. It moves only counters
and receipts (`CatalogRuns.LegacyBatchAfterInit`), and a catalog event is accepted and does the same whatever those
are (`CatalogRuns.CatalogIgnoresCounters`), so wherever it falls the states differ in counters alone, on which no
theorem over runs depends. A catalog batch runs each event in its own savepoint
(`internal/event/catalog_service.go:56-92`): an error restores the state before it.

The writers of query aggregates share no lock. A rollup and each batch of a re-evaluation pass is one statement that
reads under its own snapshot and writes every row back later, and bans and unbans may commit in between. The methods of
`Reevaluation.QueryAggregates` describe a pass nothing interferes with; `ModerationRuns` splits every statement into its
read and one write per row, in any interleaving, with `ModerationRuns.BatchIsRepair` and `ModerationRuns.RollupIsUpsert`
tying the undisturbed case to the former.

## Abstractions

- SHA-256 is a free constructor over its preimage (`Digest.Sha256`), so equal digests have equal preimages. The
  preimages of membership and page digests are built character by character; canonical JSON is one opaque piece.
- Canonical JSON is a normal form that all spellings of an array share and that survives storage as JSONB.
- A pending snapshot row owns its page rows; deleting it deletes them.
- One clock reading per transaction; the catalog clock moves in whole seconds and never backwards.
- Reals stand for floats. `1/log2(i+2)` is any positive, strictly decreasing discount, `2^(-1/half-life)` any
  factor in (0, 1], and square roots are given by a function that has the defining property.
- Unicode folding, the text-score formula, and the shared `decayed_freq`, `first_seen`, `last_seen` and
  display-form expressions are arbitrary functions passed in.

## Code against comments

Where a comment or document says more than the code does, the model follows the code and states exactly when
the wider claim holds.

- `internal/ranking/suggest.go:216-218` promises a slot to history and to documents when available. With more
  merged candidates than slots both survive exactly when one of the first `limit - 1` ranked is of either class
  (`Blend.BothClassesSurviveIff`); one of the two always does. Either class can be the one evicted
  (`Blend.HistoryEvictsTheDocument`, `Blend.DocumentEvictsTheHistory`), under the shipped weights too
  (`Blend.HistoryLosesItsSlot`).
- `internal/ranking/suggest.go:200-204` calls the order fully deterministic. The ranking is exactly when no two
  merged candidates tie in tier, score and lower-case text (`Blend.RankingUniqueIff`). The served list is exactly when
  no tie reaches its head and, whichever tied item leads the rest, one and the same item is the best of those that
  compete for the last slot (`Blend.ServedDeterminedIff`). Two texts that normalize apart but lower-case alike, as
  U+0130 and "i" under Go's folding, do tie (`Blend.TiedTextsShowMapOrder`).
- `internal/ranking/advanced.go:14-16` claims the simple ranker's ordering for anonymous requests. The creator
  penalty still runs, so the claim holds exactly when no demoted result falls behind its successor in the simple
  order, a condition on its scores and channels (`Rerank.BaselineKeepsSimpleOrderIff`). Two results per channel are
  enough for it (`Rerank.BaselineIsSimple`), a third can break it (`Rerank.ThirdResultLosesItsPlace`).
- `internal/cache/trending.go:129` says the top members come by decayed score, but the query reads the stored scores as
  each member's last bump or sweep left them. Every list served is the one by decayed scores exactly when no two stored
  members are misplaced, a comparison of their stored scores and stamps (`Trending.StoredListsRightIff`). It is enough
  that no member stands above one stamped later (`Trending.FreshFirstIsRight`), which holds after the worker's sweep
  unless a bump of a later second falls between its two calls (`Trending.SweptListIsRight`). Otherwise even a clear lead
  can fail to show (`Trending.UnsweptListMisranks`), though only over a member stamped earlier
  (`Trending.FresherTrailerStaysBehind`).
- `internal/store/sqlcgen/moderation.sql.go:27-40` and the migration it names promise that nothing is suggestible while
  banned. A batch of the re-evaluation that read a query before its ban and writes it after leaves it both
  (`ModerationRuns.BanDuringBatch`), and that is the only way (`ModerationRuns.SuggestedWhileBannedIff`). A rollup that
  read it before its ban and writes it after lifts the ban (`ModerationRuns.BanDuringRollup`), again the only way but an
  unban (`ModerationRuns.BanStandsIff`). Where no moderation falls between a statement's read of a query and its write,
  both promises hold (`ModerationRuns.UndisturbedModeration`).
- `internal/search/advanced.go:155-158`: on overflow `has_more` can be true with no further page
  (`RecallPaging.HasMoreExactIff`).
- `internal/worker/reevaluate.go:29-30` calls the reported count exact in both modes. Both stop at 1,000,000 rows,
  and only the apply loop reaches an empty key (`Reevaluation.DryRunAgrees`); no run creates one
  (`ModerationRuns.DryRunIsExact`).
- `internal/suggest/service.go:181`: the cache key leaves out the limit (`SuggestionCache.SharedEntryIff`).
- `internal/model/shadow.go:257-267` keys labels by video id, so a video shown under two labels may change the label
  multiset. All ranked orders of a group still share one ideal; they share the served order's exactly when the
  mapped labels are those served, as a multiset (`Ndcg.IdealSharedIff`). Two labels can break that
  (`Ndcg.TwoLabelsShiftTheIdeal`) or cancel out (`Ndcg.TwoLabelsMayCancel`); one label per video is enough for it.

## Model

| member | source | states |
|---|---|---|
| Identifiers.GenerationRoundTrip | internal/catalog/protocol.go:27-45 | a wire text decodes to g exactly when it is the one text a positive 64-bit g encodes to |
| Identifiers.DecimalInjective | internal/catalog/protocol.go:31 | two generations never print alike |
| CatalogDigests.MembershipDigest | internal/catalog/protocol.go:68-84 | succeeds exactly on duplicate-free, nil-free ids, with a digest of the set of ids whatever their order |
| CatalogDigests.SetDigestInjective | internal/catalog/protocol.go:65-84 | equal membership digests mean equal sets of ids |
| CatalogDigests.PagesDigest | internal/catalog/hashes.go:43-57 | succeeds exactly when the pages, sorted, are 0..n-1 with well-formed digests, and hashes their lines |
| CatalogDigests.PagesDigestBinds | internal/catalog/hashes.go:41-57 | two page lists with one pages digest are permutations of each other |
| CatalogSnapshot.VerifySnapshot | internal/catalog/snapshot.go:20-64 | accepts exactly the complete fulls: counts, ledger, contents, duplicate-free membership and both digests; the early quota exits reject nothing else |
| CatalogSnapshot.ManifestBindsDocuments | internal/catalog/snapshot.go:18-64 | two complete fulls under one manifest hold the same documents page by page |
| CatalogStore.Store.constructor | internal/store/catalog_status.go:29-41 | a service without an epoch starts in a state satisfying every invariant |
| CatalogStore.Store.SetCatalogEpoch | internal/store/catalog_epoch.go:29-85 | compare-and-swap: only an unused epoch with the right predecessor commits, only an exact retry is idempotent, an error changes nothing |
| CatalogStore.Store.AdmitCatalogGeneration | internal/store/catalog_admission.go:19-70 | admits the newest generation into an empty slot, an unexpired pending one as it is, and rejects the rest unchanged |
| CatalogStore.Store.StageCatalogPage | internal/store/catalog_pages.go:20-101 | immutable replay, quotas, manifest range, disjoint membership and ledger update agree with the specified state and error |
| CatalogStore.Store.StageCatalogEnd | internal/store/catalog_end.go:15-68 | immutable manifest, completed replay and stored-page checks agree with the specified state and error |
| CatalogStore.Store.LoadVerifiedCatalogSnapshot | internal/store/catalog_verified.go:22-93 | yields the manifest exactly when the pending pages are a complete full; writes nothing |
| CatalogStore.Store.CompleteCatalogSnapshot | internal/store/catalog_activation.go:21-90 | recheck, upsert, orphan, fence and delete together commit the specified projection or report its error |
| CatalogStore.Store.UpsertIncoming | internal/store/catalog_activation.go:44-70 | row-by-row upsert over distinct ids equals the projection of all listed ids at once |
| CatalogStore.Store.HideUnlisted | internal/store/catalog_activation.go:71-75 | the orphan update, visiting rows in any order, hides exactly the visible unlisted local rows |
| CatalogStore.TwoStatements | internal/store/catalog_activation.go:44-75 | the two statements in sequence are one simultaneous projection |
| CatalogStore.Store.ApplyCatalogOne | internal/event/catalog_service.go:56-92 | one event commits its specified state or leaves the state as it was; every invariant is kept |
| CatalogStore.Store.StageEventPayload | internal/event/catalog_service.go:66-87 | staging dispatches on the payload and rejects what does not parse |
| CatalogStore.Store.IngestCatalogBatch | internal/event/catalog_service.go:18-54 | a batch commits the events in order, reports the failures in order, and accepted plus failed is its size |
| CatalogStore.BatchIsFoldOfAccepted | internal/event/catalog_service.go:31-53 | a batch commits exactly what its accepted events alone commit; rejected ones leave no trace |
| CatalogStore.Store.PruneCatalogSnapshots | internal/store/catalog_retention.go:12-30 | removes the pending snapshot exactly when it is 24 hours old and counts it |
| CatalogStore.Store.ReadCatalogStatus | internal/store/catalog_status.go:15-55 | refuses any scope but local, and otherwise the status filled field by field, the start of a pending snapshot included, is the one atomic reading of the authority |
| CatalogStore.Store.LegacyCatalogBlocked | internal/event/catalog_legacy.go:20-36 | blocked exactly when some event is of a catalog type and a scope exists |
| CatalogStore.Store.IngestLegacyBatch | internal/event/service.go:119-167 | blocked events fail before deduplication, receipts deduplicate, errors leave no receipt; accepted, duplicates and failures are counted event by event |
| LegacyEvents.ReportAddsUp | internal/event/service.go:119-167 | the three counts add up to the batch, and the receipts kept are exactly the accepted ones more |
| CatalogInvariants.SetEpochKeepsInv | internal/store/catalog_epoch.go:68-84 | an epoch change extends the one chain of epochs and keeps every invariant |
| CatalogInvariants.AdmitKeepsCore | internal/store/catalog_admission.go:36-69 | admission keeps every invariant but strict incompleteness, which only a whole event restores, and no document moves |
| CatalogInvariants.AddPageTotals | internal/store/catalog_pages.go:63-100 | a new page adds exactly its bytes and documents and keeps membership duplicate-free |
| CatalogInvariants.StageKeepsCore | internal/event/catalog_service.go:66-87 | staging keeps every invariant but strict incompleteness, which the last page ends until completion runs, and touches no document |
| CatalogInvariants.CountedPagesSuffice | internal/store/catalog_verified.go:86-91 | once a declared snapshot has page_count pages their indexes are exactly 0..n-1, and verification can fail only on the document count or one of the two digests |
| CatalogInvariants.RecheckNeverRejects | internal/store/catalog_activation.go:30-40 | the recheck of eligibility and ownership finds nothing to refuse: staged documents are publishable and none is a remote video |
| CatalogInvariants.CompleteKeepsInv | internal/store/catalog_activation.go:21-90 | completion keeps every invariant, publishes its membership and leaves nothing complete pending |
| CatalogInvariants.ProjectedEligible | internal/store/catalog_activation.go:44-75 | after projection the visible local documents are exactly the listed ids |
| CatalogInvariants.DeliverAllKeepsInv | internal/event/catalog_service.go:31-53 | any batch keeps every invariant |
| CatalogRuns.RunsKeepInv | internal/store/catalog_epoch.go:17-24 | every run of any mix of transactions keeps every invariant and only moves authority forward |
| CatalogRuns.CompletedMembershipIsVisible | internal/store/catalog_activation.go:44-88 | whenever a generation is complete the eligible local documents are exactly its membership: count and digest agree and no other set has that digest |
| CatalogRuns.PendingIsCurrentAndIncomplete | internal/store/catalog_pages.go:60-100 | after every transaction a pending snapshot is of the current epoch, is the highest generation past the completed one, has an exact ledger, disjoint pages, quotas and manifest range respected, and is strictly incomplete |
| CatalogRuns.AuthorityOnlyAdvances | internal/store/catalog_epoch.go:41-84 | predecessor links form one chain headed by the current epoch, and (chain length, highest, completed) never decreases |
| CatalogRuns.DeadGenerationsStayDead | internal/store/catalog_admission.go:36-69 | an event of a superseded, completed, pruned or expired generation changes nothing, now or after any further run |
| CatalogRuns.CompletionFailsOnEvidenceOnly | internal/store/catalog_activation.go:21-90 | in every run, an event that brings a declared snapshot to its page count completes it exactly when the document count and the two manifest digests match; recheck, fence and ledger never stand in the way |
| CatalogRuns.LegacyBatchAfterInit | internal/event/catalog_legacy.go:11-36 | once an epoch exists a legacy batch can change counters and receipts only |
| CatalogRuns.CatalogIgnoresCounters | internal/event/catalog_legacy.go:20-36 | a catalog event is accepted and does the same whatever the counters of the rows and the receipts are, so where a statistics batch outside the lock falls shows in counters only |
| CatalogRuns.StepLater | internal/store/catalog_epoch.go:57-67 | no transaction reuses an epoch, lowers a generation, or changes catalog rows without completing a newer generation |
| CatalogEffects.CompletionEffect | internal/store/catalog_activation.go:30-88 | listed rows take frozen metadata; existing ones keep counters, new ones are seeded; visible unlisted local rows become catalog_orphan; remote and hidden rows are untouched; fence published, pending gone |
| CatalogEffects.ProjectionIdentity | internal/store/catalog_activation.go:41-75 | projection rewrites nothing exactly when every listed row already shows its metadata and no other local row is visible |
| CatalogEffects.SameContentRewritesNothing | internal/store/catalog_activation.go:41-68 | publishing the same metadata as a later generation rewrites no document, whatever ran in between short of another completion |
| Confluence.TransmissionOutcome | internal/event/catalog_service.go:56-92 | after any deliveries of parts of one full the state depends only on which parts arrived and when the last new one did |
| Confluence.TransmissionsConfluent | internal/store/catalog_pages.go:46-101 | two deliveries of one full, each in its own order with its own repetitions, end in the same fence, manifest and documents up to indexed_at |
| Confluence.NothingPublishedEarly | internal/store/catalog_end.go:13-67 | until the last distinct part arrives no document moves and the completed generation stays |
| CatalogReads.StatusIsAuthority | internal/api/catalog_read.go:19-45 | a fence handed out names the published authority, and the visible documents are its membership |
| CatalogReads.SameFenceBetween | internal/api/catalog_read.go:47-58 | authority cannot leave a fence and come back to it |
| CatalogReads.FencedReadSeesOneCatalog | internal/api/catalog_read.go:19-58 | equal fences before and after rule out ABA: authority, visible documents and every document row but for its counters were constant at every instant between |
| SuggestionCache.CacheKeyInjective | internal/suggest/service.go:179-182 | a cacheable key determines fence, mode, sensitivity and prefix, though mode is free text |
| SuggestionCache.SharedEntryIff | internal/suggest/service.go:181 | two cacheable requests share an entry exactly when they agree on everything but the limit |
| SuggestionCache.PlayKeepsWorld | internal/suggest/service.go:182-207 | any interleaving of readers, writers, failures and evictions keeps every cached list tied to its key and fence, and no degraded list is cached |
| SuggestionCache.FencedAnswersAreUnmixed | internal/api/catalog_read.go:47-58 | a list answered 200 under a fence, cached or not, was computed for the same question and entirely while that fence was the authority, from rows that but for counters still stand when it is answered; a degraded list is its own reader's |
| Ndcg.DcgAt | internal/model/eval.go:14-20 | the loop computes the discounted gain of the first k labels |
| Ndcg.NdcgAt | internal/model/eval.go:25-34 | gain over ideal gain, 0 without an ideal |
| Ndcg.SortMaximizes | internal/model/eval.go:22-34 | rearrangement: no order gains more than the descending one, with equality exactly when the first k labels coincide |
| Ndcg.NdcgRange | internal/model/eval.go:22-34 | NDCG lies in [0, 1] and is 1 exactly for a positive label and the k best labels first in order |
| Ndcg.DescendingIsPerfect | internal/model/eval.go:22-34 | a descending list with a positive label scores 1 |
| Ndcg.GroupImpressions | internal/model/shadow.go:165-191 | each key of a usable row has exactly one group, holding all its rows in order |
| Ndcg.RelsInRankedOrder | internal/model/shadow.go:257-267 | the labels of the ranked videos under the last-wins label map |
| Ndcg.RankingKeepsLabels | internal/model/shadow.go:257-267 | ranking preserves every (video, label) pair exactly when no video has two labels |
| Ndcg.IdealSharedIff | internal/model/shadow.go:117-134 | ranked orders of a group share one ideal, and share the served one exactly when the mapped labels are the served labels as a multiset |
| Ndcg.TwoLabelsShiftTheIdeal | internal/model/shadow.go:257-267 | a concrete group every ranked order of which has another ideal than the served order |
| Ndcg.TwoLabelsMayCancel | internal/model/shadow.go:257-267 | a concrete group with two-labelled videos whose ideal is shared all the same |
| Ndcg.OneIdealPerGroup | internal/model/shadow.go:117-134 | NDCG compares the gains of shadow and heuristic order always, and of either with the served order whenever the labels survive |
| Trending.TrendSet.Bump | internal/cache/trending.go:32-48 | decay to now plus one, stamped now, other members untouched |
| Trending.TrendSet.Sweep | internal/cache/trending.go:54-76 | every member decayed and stamped, those under the floor removed, survivors counted, whatever the visiting order |
| Trending.StoredIsExactWithinSlack | internal/cache/trending.go:32-76 | under any interleaving the decayed stored score is at most the exact sum and short of it by less than floor/(1-floor) |
| Trending.LazyDecayIsExact | internal/cache/trending.go:32-48 | without sweeps lazy decay equals the exact sum |
| Trending.TrendSet.TrendTop | internal/cache/trending.go:130-145 | the k highest stored scores, highest first, ties by member descending; nothing for k at or below 0 |
| Trending.SweptTopRanksLeads | internal/worker/worker.go:607-614 | read right after a sweep, the list shows an exact lead of floor/(1-floor): the leader stands before |
| Trending.StoredListsRightIff | internal/cache/trending.go:129-145 | on every reachable trend, at every time and for every k the stored top list names the same members in the same order as the one by decayed scores, exactly when no two stored members are misplaced by their scores and stamps |
| Trending.FreshFirstIsRight | internal/cache/trending.go:129-145 | where no member stands above one stamped later, every list is right |
| Trending.SweptListIsRight | internal/worker/worker.go:607-614 | after a sweep, with no bump since or only bumps of its second, every list is right whenever it is read |
| Trending.FresherTrailerStaysBehind | internal/cache/trending.go:130-145 | on any run a clear exact lead over a member stamped no earlier shows in the stored scores |
| Trending.UnsweptListMisranks | internal/cache/trending.go:130-145 | a concrete run whose unswept list puts the trailing member first |
| SubjectFloor.NullingShift | docs/privacy.md:128-143 | nulling an account trades its one subject for its uncounted fallbacks: the exact new count |
| SubjectFloor.FewerPeople | internal/store/sqlcgen/covisitation.sql.go:231-245 | fewer rows never mean more subjects |
| Covisitation.MassIsSum | internal/store/sqlcgen/covisitation.sql.go:275-280 | a video's mass is the sum of its pair counts over all other videos |
| Covisitation.DeletionNeverPublishes | internal/store/sqlcgen/covisitation.sql.go:229-287 | deleting ledger rows never lifts a pair over the floor |
| Covisitation.AnonymizingShift | docs/privacy.md:128-143 | how nulling a user_id changes a pair's subject count, exactly |
| Covisitation.AnonymizingCanPublish | docs/privacy.md:128-143 | a concrete ledger where nulling publishes a pair that was under the floor |
| Covisitation.ScoreRange | internal/store/sqlcgen/covisitation.sql.go:303-317 | scores are symmetric, in [0, 1], and positive exactly for pairs over the floor in some source |
| Covisitation.CosineRange | internal/ranking/covis.go:29-35 | the shrunk cosine of real evidence lies in (0, 1] |
| Covisitation.FloorOnlyGates | internal/store/sqlcgen/covisitation.sql.go:376-386 | raising the floor zeroes shares and rescales none |
| Covisitation.KeepsTheBest | internal/store/sqlcgen/covisitation.sql.go:318-328 | the row-number cut keeps min(M, candidates) neighbors and nothing behind a dropped one |
| Covisitation.PublishedHasSupport | internal/store/sqlcgen/covisitation.sql.go:281-328 | every published edge has the floor's subjects in some source, here and in every ledger this one was cut from, and a score in (0, 1] |
| Covisitation.PairCounts | internal/store/sqlcgen/covisitation.sql.go:229-274 | the self-joins over sessions and rows count each pair's visits and distinct subjects |
| Covisitation.Totals | internal/store/sqlcgen/covisitation.sql.go:275-297 | summing the pair table by video gives every video its mass |
| Covisitation.TableShareIsShare | internal/store/sqlcgen/covisitation.sql.go:281-317 | the share read off the two tables is the share defined on the ledger |
| Covisitation.NeighborIndex.Rebuild | internal/worker/worker.go:569-594 | computed table by table, the covis-v1 rows are afterwards the published function of the ledger alone, others as before |
| Reevaluation.Preview | internal/store/sqlcgen/reevaluation.sql.go:13-50 | the next page of changed keys past the cursor, in order, each with the values it would take |
| Reevaluation.PreviewTellsTheRepair | internal/store/sqlcgen/reevaluation.sql.go:13-50 | the values previewed are those the repair then stores |
| Reevaluation.DryRun | internal/worker/reevaluate.go:91-108 | keyset paging counts every changed row with a non-empty key once, up to 1,000,000, and samples the first ten |
| Reevaluation.QueryAggregates.ReevaluateBatch | internal/store/sqlcgen/reevaluation.sql.go:164-218 | repairs the first lim changed rows and no others, banned untouched |
| Reevaluation.QueryAggregates.ApplyLoop | internal/worker/reevaluate.go:118-132 | the shrinking batches together repair exactly the first min(changed, 1,000,000) rows of the original table |
| Reevaluation.QueryAggregates.Reevaluate | internal/worker/reevaluate.go:49-139 | skips on an empty ledger, changes nothing dry, and both modes name the same sample |
| Reevaluation.UnderCapConverges | internal/worker/reevaluate.go:118-132 | a pass under the cap leaves nothing to change |
| Reevaluation.DryRunAgrees | internal/worker/reevaluate.go:29-37 | both modes report one number exactly when the empty key is not changed or the cap is exceeded |
| ModerationRuns.BatchIsRepair | internal/store/sqlcgen/reevaluation.sql.go:164-218 | a batch whose read and row writes nothing interrupts is the update of its first changed rows, in whatever order it writes |
| ModerationRuns.RollupIsUpsert | internal/store/sqlcgen/rollups.sql.go:437-523 | an undisturbed rollup, in whatever order it writes, is its upsert |
| ModerationRuns.SuggestibleIsEarned | internal/store/sqlcgen/moderation.sql.go:82-105 | under any interleaving of bans, unbans, rollups and batches every suggestible row counts the lowest floor used, and no row has the empty key |
| ModerationRuns.SuggestedWhileBannedIff | internal/store/sqlcgen/reevaluation.sql.go:164-218 | a row is suggestible and banned exactly when the last write to touch it is a batch's that had wanted it flagged, over a ban set between that batch's read and write |
| ModerationRuns.BanStandsIff | internal/store/sqlcgen/rollups.sql.go:498-522 | a ban no unban follows stands at every later instant exactly when no rollup that had found the query unbanned before it writes it after |
| ModerationRuns.UndisturbedModeration | internal/store/sqlcgen/moderation.sql.go:13-105 | where no moderation of a query falls between a statement's read of it and its write, it is never suggestible and banned, and banned exactly when last banned |
| ModerationRuns.BanDuringBatch | internal/store/sqlcgen/reevaluation.sql.go:164-218 | for every log and floor, a run that leaves a query over the floor suggestible and banned |
| ModerationRuns.BanDuringRollup | internal/store/sqlcgen/rollups.sql.go:498-522 | for every log, a run that loses the ban of a query first counted by the rollup under way |
| ModerationRuns.DryRunIsExact | internal/worker/reevaluate.go:91-132 | on every table any interleaving reaches the two modes agree |
| ModerationRuns.EmptyKeyHidesFromDryRun | internal/store/sqlcgen/reevaluation.sql.go:36 | a table no run reaches on which they differ |
| Reevaluation.OneRecount | internal/store/sqlcgen/rollups.sql.go:437-523 | the rollup's own recount and upsert leave a row that re-evaluation would not touch, and differ from re-evaluation in the display form only |
| Reevaluation.RollupSettles | internal/store/sqlcgen/rollups.sql.go:437-523 | re-evaluation after a rollup moves none of its rows: the flag cannot flap |
| Reevaluation.SettledSurvivesRollup | internal/store/sqlcgen/reevaluation.sql.go:121-127 | a rollup after re-evaluation moves no flag and no count |
| Reevaluation.DeletionNeverPromotes | docs/privacy.md:108-118 | deleting log rows never makes a query suggestible |
| Rerank.RerankWith | internal/ranking/advanced.go:176-238 | maxima, scores, sorts and penalty computed in loops are the specified ranking |
| Rerank.Penalize | internal/ranking/advanced.go:218-230 | running counts per channel demote each third and later result by its distance past the second |
| Rerank.ResultPermutesIds | internal/ranking/advanced.go:172-238 | the result is a permutation of the input ids sorted by score, ids breaking ties |
| Rerank.NormalizedRange | internal/ranking/advanced.go:168-208 | across the set every signal is scaled to at most 1, non-negative ones into [0, 1] |
| Rerank.WeightCapsSignal | internal/ranking/advanced.go:23-27 | a weight caps its signal: moving the signal within [0, 1] moves the score the same way by at most the weight |
| Rerank.InputOrderIrrelevant | internal/ranking/advanced.go:164-167 | with distinct ids the result does not depend on input order |
| Rerank.ChannelOrderSurvives | internal/ranking/advanced.go:216-231 | the final ranking takes each place of the pre-penalty order once and never swaps two results of one channel, repeated ids included |
| Rerank.PenaltyKeepsOrderIff | internal/ranking/advanced.go:216-231 | the penalty leaves every place alone, and with distinct ids the order of ids, exactly when no demoted result falls behind its successor |
| Rerank.BaselineKeepsSimpleOrderIff | internal/ranking/advanced.go:13-21 | without advanced signals the ranking is in the simple order exactly when each gap of the simple order covers its creator penalties; always when the penalty is off |
| Rerank.BaselineIsSimple | internal/ranking/advanced.go:13-21 | without advanced signals and at most two results per channel the ranking is the simple one, scores included |
| Rerank.ThirdResultLosesItsPlace | internal/ranking/advanced.go:13-21 | for every positive penalty, whatever the other weights, a baseline input the advanced scorer does not rank as the simple one |
| Blend.Blend | internal/ranking/suggest.go:90-162 | for any map iteration order the output is the slot-reserved ranking of the merged candidates |
| Blend.ReserveSlots | internal/ranking/suggest.go:219-257 | scanning, promoting and evicting only ever decides who takes the last slot |
| Blend.BestIsMerged | internal/ranking/suggest.go:103-138 | one winner per non-empty key that none of the key's candidates beats; personal iff one was, a video id iff one had one, and then one of theirs |
| Blend.StreamsNormalized | internal/ranking/suggest.go:95-101 | each stream is scaled by its own maximum: shares at most 1, reached within the stream |
| Blend.ServedShape | internal/ranking/suggest.go:83-89 | min(limit, distinct non-empty keys) suggestions with distinct keys, exact prefixes before fuzzy |
| Blend.OneClassSurvives | internal/ranking/suggest.go:216-252 | a history or document suggestion is served whenever one is available, and a class available alone is |
| Blend.BothClassesSurviveIff | internal/ranking/suggest.go:216-252 | with more candidates than slots both classes survive exactly when one is among the first limit - 1 ranked |
| Blend.HistoryEvictsTheDocument | internal/ranking/suggest.go:243-252 | a concrete sorted ranking whose best document a promoted history item evicts |
| Blend.DocumentEvictsTheHistory | internal/ranking/suggest.go:243-252 | a concrete sorted ranking where the promoted document evicts the history item promoted just before |
| Blend.HistoryLosesItsSlot | internal/ranking/suggest.go:90-162 | candidates and the shipped weights under which the blend serves no history although it has some |
| Blend.RankingUniqueIff | internal/ranking/suggest.go:202-214 | the ranking is determined, whatever the map order, exactly when no two candidates tie |
| Blend.ServedDeterminedIff | internal/ranking/suggest.go:200-257 | the served list is the same for every map order exactly when no tie reaches its head and one item alone may come first of those competing for the last slot |
| Blend.TiedTextsShowMapOrder | internal/ranking/suggest.go:200-214 | texts that normalize apart but lower-case alike are served in map order |
| RecallPaging.WindowCoversPage | internal/search/advanced.go:142-165 | the window is the least whole number of blocks covering the page, within the ceiling |
| RecallPaging.SearchAdvanced | internal/search/advanced.go:47-139 | probe, truncation and the hit loop serve the specified page for any requested offset and limit |
| RecallPaging.PageSize | internal/search/advanced.go:128-138 | a page holds min(limit, what remains under the ceiling), and has_more says whether anything remains after it |
| RecallPaging.HasMoreExactIff | internal/search/advanced.go:134-138 | has_more predicts the next page exactly when offset + limit does not overflow or the corpus fits one block |
| RecallPaging.WalkServesAll | internal/search/advanced.go:142-153 | following has_more ends after exactly min(matches, 2000) results, for any permuting ranker |
| RecallPaging.SmallCorpusWalk | internal/search/advanced.go:146-153 | over one block the walk serves the ranking itself, every match once |
| RecallPaging.AdjacentPagesJoin | internal/search/advanced.go:146-153 | adjacent pages of one window are one slice of its ranking |
| RecallPaging.WindowServesOnce | internal/search/advanced.go:146-153 | the pages of one window serve no match twice |

## Left out

- JSON syntax, exact field names and typed decoding of event payloads: an event arrives decoded or undecodable.
- Database, Redis and context errors, and the commit of a transaction failing: transactions commit whole or not at all.
- Timestamps nothing depends on (completed_at, indexed_at order); indexed_at is kept to show which rows are rewritten.
- Unfenced reads before initialization: legacy writes may race with them, and no fence theorem covers them.
- The suggestion reader and its cache are modelled on values, as interleaved steps of a world, not as an object.
- HTTP routing, authentication, metrics, configuration, the sessionizer, feeds, recommendations and model training.
- Redis key expiry: a trend set never expires as a whole, and the cache may evict at any time.
- The guard that counts one bump per subject and window, HyperLogLog counts and cached trending lists.
- Rounding of floats, including the cast of a neighbor score to a 4-byte float and the 4-digit rounding of reports.
- Mean reciprocal rank, Wilson bounds, experiment bucketing and the diversity composer: easy facts beside these.
- Database collation: keys are ordered lexicographically by character.
- Covisitation.NeighborIndex.Rebuild: takes the ledger and the square root as arguments; the one INSERT statement is written as loops over its common table expressions.
- CatalogStore.Store.ReadCatalogStatus: leaves out completed_at and the constant limits, which no other result depends on.
- Confluence.TransmissionsConfluent: covers deliveries within 24 hours of the first, and documents agree up to indexed_at when the last parts arrive at different times.
- Ndcg.NdcgAt: labels are natural numbers, which is all labelOf yields; the copy to be sorted is a value, sorted by a function.
- Blend.ReserveSlots: the backward scan for the weakest item outside a class is its first step, since no picked item is of that class when it runs.
- RecallPaging.WalkServesAll: counts results; across a window boundary the reranked order may repeat or skip a match, within one window it cannot (`RecallPaging.WindowServesOnce`).
- Moderation runs: a statement that fails part way is not undone row by row; its rows stay as last written, which only adds runs.
