/** What publishing a full does to the documents, and what publishing it again does. */
module CatalogEffects {
  import opened Wrappers
  import opened TextOrder
  import opened Identifiers
  import opened CatalogTypes
  import opened CatalogDigests
  import opened CatalogSnapshot
  import opened CatalogModel
  import opened CatalogPages
  import opened CatalogInvariants
  import opened CatalogRuns

  /** The documents a completing event would publish, by id. */
  function Incoming(s: State): map<Uuid, Document>
    requires s.pending.Some?
  {
    ById(AllDocuments(PagesInOrder(s.pending.value.pages)))
  }

  /** s completes id now. */
  ghost predicate Completing(s: State, id: Identity) {
    Complete(s, id).Ok? && LoadVerified(s, id).value.Some?
  }

  lemma IncomingNotForeign(s: State, id: Identity)
    requires Completing(s, id)
    ensures forall x :: x in Incoming(s) ==> !Foreign(s.documents, x)
  {
    hide CompleteFull;
    var docs := AllDocuments(PagesInOrder(s.pending.value.pages));
    ByIdKeys(docs);
    forall x | x in Incoming(s) ensures !Foreign(s.documents, x) {
      assert Incoming(s)[x] in docs;
    }
  }

  lemma ProjectionEffect(documents: Documents, incoming: map<Uuid, Document>, now: int)
    requires forall x :: x in incoming ==> !Foreign(documents, x)
    ensures var after := Projected(documents, incoming, now);
            && after.Keys == documents.Keys + incoming.Keys
            && (forall x :: x in incoming ==> ShowsFrozen(after[x], incoming[x]))
            && (forall x :: x in incoming && x in documents ==> KeepsCounters(documents[x], after[x]))
            && (forall x :: x in incoming && x !in documents ==>
                  after[x].views == incoming[x].video.views && after[x].likes == incoming[x].video.likes)
            && (forall x :: x in documents && x !in incoming ==>
                  after[x] == if x in EligibleLocal(documents) then Orphan(documents[x], now) else documents[x])
  {
  }

  predicate KeepsCounters(a: Row, b: Row) {
    a.views == b.views && a.likes == b.likes && a.reconcileRun == b.reconcileRun
  }

  function Orphan(r: Row, now: int): Row {
    r.(eligible := false, suppressedReason := Some("catalog_orphan"), indexedAt := now)
  }

  /** The exact effect of completion. Listed rows show their frozen metadata; those that existed keep
      counters, reconcile stamp and place, new ones are seeded from the page. Visible local rows not
      listed become orphans and keep everything else. Remote rows, and hidden rows not listed, are
      untouched. The manifest and generation are published and nothing stays pending. */
  lemma CompletionEffect(s: State, id: Identity)
    requires Completing(s, id)
    ensures var t, incoming := Complete(s, id).value, Incoming(s);
            && t.scope == Some(s.scope.value.(completed := id.generation, manifest := s.pending.value.manifest))
            && t.pending == None && t.history == s.history && t.inbox == s.inbox
            && t.documents.Keys == s.documents.Keys + incoming.Keys
            && (forall x :: x in incoming ==> ShowsFrozen(t.documents[x], incoming[x]))
            && (forall x :: x in incoming && x in s.documents ==> KeepsCounters(s.documents[x], t.documents[x]))
            && (forall x :: x in incoming && x !in s.documents ==>
                  t.documents[x].views == incoming[x].video.views && t.documents[x].likes == incoming[x].video.likes)
            && (forall x :: x in s.documents && x !in incoming ==>
                  t.documents[x] == if x in EligibleLocal(s.documents) then Orphan(s.documents[x], s.clock) else s.documents[x])
  {
    hide CompleteFull, Projected, ShowsFrozen, Rejected, HasPending;
    IncomingNotForeign(s, id);
    ProjectionEffect(s.documents, Incoming(s), s.clock);
  }

  /** Projection leaves every row as it stands exactly when it has nothing to say: each listed row
      already shows its frozen metadata and no other local row is visible. */
  lemma ProjectionIdentity(documents: Documents, incoming: map<Uuid, Document>, now: int)
    requires forall x :: x in incoming ==> !Foreign(documents, x)
    ensures Projected(documents, incoming, now) == documents
       <==> (forall x :: x in incoming ==> x in documents && ShowsFrozen(documents[x], incoming[x]))
            && EligibleLocal(documents) <= incoming.Keys
  {
    var projected := Projected(documents, incoming, now);
    if projected == documents {
      forall x | x in incoming ensures x in documents && ShowsFrozen(documents[x], incoming[x]) {
        assert x in projected;
        assert projected[x] == ListedRow(Live(documents, x), incoming[x], now);
      }
      forall x | x in EligibleLocal(documents) ensures x in incoming {
        assert projected[x] == documents[x];
      }
    }
  }

  /** Once a full is published, publishing the same metadata as a later generation of the epoch
      rewrites no document, whatever ran in between short of another completion. */
  lemma SameContentRewritesNothing(s: State, first: Identity, steps: seq<Step>, second: Identity)
    requires Completing(s, first) && Inv(Complete(s, first).value)
    requires var u := Exec(Complete(s, first).value, steps);
             && Completing(u, second)
             && second.epoch == first.epoch && u.scope.value.completed == first.generation
             && Incoming(u).Keys == Incoming(s).Keys
             && forall x :: x in Incoming(u) ==> Frozen(Incoming(u)[x].video) == Frozen(Incoming(s)[x].video)
    ensures var u := Exec(Complete(s, first).value, steps);
            Complete(u, second).value.documents == u.documents
  {
    hide CompleteFull;
    var t := Complete(s, first).value;
    RunsKeepInv(t, steps);
    var u := Exec(t, steps);
    CompletionEffect(s, first);
    IncomingNotForeign(s, first);
    ProjectedEligible(s.documents, Incoming(s), s.clock);
    assert Later(t, u) && SameEpochLater(t, u);
    SameCatalogEligible(t.documents, u.documents);
    IncomingNotForeign(u, second);
    forall x | x in Incoming(u) ensures x in u.documents && ShowsFrozen(u.documents[x], Incoming(u)[x]) {
      assert x in t.documents && ShowsFrozen(t.documents[x], Incoming(s)[x]);
    }
    ProjectionIdentity(u.documents, Incoming(u), u.clock);
  }
}
