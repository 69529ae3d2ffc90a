/** Fenced reads: the status read before and after a response, with writers' transactions in between. */
module CatalogReads {
  import opened Wrappers
  import opened Identifiers
  import opened CatalogTypes
  import opened CatalogDigests
  import opened CatalogModel
  import opened CatalogInvariants
  import opened CatalogRuns

  // ----- status and fence -----

  datatype Status = Status(
    epoch: Option<Uuid>, highest: string, completed: string, ready: bool,
    manifest: Option<Manifest>, foreignEligible: bool, stagedSnapshots: nat, oldestStagedAt: Option<int>)

  predicate ForeignEligible(documents: Documents) {
    exists id :: id in documents && documents[id].kind != Local && documents[id].eligible
  }

  function GenerationText(g: int): string {
    if g < 0 then "-" else Decimal(g)
  }

  /** ReadCatalogStatus: one snapshot of the authority; before initialization all defaults. */
  function ReadStatus(s: State): Status {
    match s.scope
    case None => Status(None, "0", "0", false, None, false, 0, None)
    case Some(scope) =>
      var staged := s.pending.Some? && s.pending.value.epoch == scope.epoch && s.pending.value.generation == scope.highest;
      Status(Some(scope.epoch), GenerationText(scope.highest), GenerationText(scope.completed), scope.completed > 0,
             if scope.completed > 0 then scope.manifest else None, ForeignEligible(s.documents), if staged then 1 else 0,
             if staged then Some(s.pending.value.createdAt) else None)
  }

  datatype Fence = Fence(epoch: string, generation: string)

  const UNFENCED := Fence("", "")

  /** Request headers; a header may be absent. */
  datatype Headers = Headers(epoch: Option<string>, generation: Option<string>)

  function Get(h: Option<string>): string {
    if h.Some? then h.value else ""
  }

  /** beginCatalogRead: None is 503. */
  function BeginRead(status: Status, h: Headers): Option<Fence> {
    match status.epoch
    case None => if h.epoch.Some? || h.generation.Some? then None else Some(UNFENCED)
    case Some(epoch) =>
      if !status.ready || status.foreignEligible || status.completed == "0"
         || Get(h.epoch) != epoch.text || Get(h.generation) != status.completed
      then None
      else Some(Fence(epoch.text, status.completed))
  }

  /** finishCatalogRead: whether the response may be sent. */
  predicate FinishRead(status: Status, h: Headers, before: Fence) {
    BeginRead(status, h) == Some(before)
  }

  // ----- no ABA -----

  /** The database as it is once the first t transactions of a run have committed. */
  ghost function At(start: State, steps: seq<Step>, t: nat): State
    requires t <= |steps|
  {
    Exec(start, steps[..t])
  }

  /** The fence names the published authority of s, and every visible document belongs to it. */
  ghost predicate Authority(s: State, f: Fence) {
    && s.scope.Some? && s.scope.value.completed > 0
    && s.scope.value.epoch.text == f.epoch && Decimal(s.scope.value.completed) == f.generation
    && s.scope.value.manifest.Some?
    && Publishes(s.scope.value.manifest.value, Eligible(s.documents))
  }

  lemma StatusIsAuthority(s: State, h: Headers, f: Fence)
    requires Inv(s) && BeginRead(ReadStatus(s), h) == Some(f) && f != UNFENCED
    ensures Authority(s, f)
  {
    hide PagesOk, Heads, SetDigest;
    assert Eligible(s.documents) == EligibleLocal(s.documents);
  }

  lemma InvSane(s: State)
    requires Inv(s)
    ensures Sane(s)
  {
    hide Chain, StagedOk, ProjectionOk;
    CurrentEpochUsed(s);
  }

  lemma {:induction false} RunLater(start: State, steps: seq<Step>, i: nat, j: nat)
    requires Inv(start) && i <= j <= |steps|
    ensures Later(At(start, steps, i), At(start, steps, j)) && Inv(At(start, steps, i)) && Inv(At(start, steps, j))
  {
    hide Inv, Next, Later;
    var s, t := At(start, steps, i), At(start, steps, j);
    RunsKeepInv(start, steps[..i]);
    RunsKeepInv(start, steps[..j]);
    InvSane(s);
    if i == j {
      RunsKeepInv(s, []);
    } else {
      var u := At(start, steps, j - 1);
      RunLater(start, steps, i, j - 1);
      assert steps[..j][..j - 1] == steps[..j - 1];
      InvSane(u);
      StepLater(u, steps[j - 1]);
      LaterTransitive(s, u, t);
    }
  }

  /** Authority cannot leave a fence and come back. */
  lemma SameFenceBetween(s: State, t: State, u: State, f: Fence)
    requires EpochUsed(s) && EpochUsed(t) && Later(s, t) && Later(t, u)
    requires Authority(s, f) && Authority(u, f)
    ensures Authority(t, f) && t.scope.value.manifest == s.scope.value.manifest
    ensures Eligible(t.documents) == Eligible(s.documents) && SameCatalog(s.documents, t.documents)
  {
    DecimalInjective(s.scope.value.completed, u.scope.value.completed);
    assert s.scope.value.epoch == u.scope.value.epoch;
    SameCatalogEligible(s.documents, t.documents);
  }

  /** Equal fences before and after a read rule out ABA: at every instant in between the fence was
      the authority, its manifest the published one, the visible documents the same set, and every row,
      metadata included, the same but for its counters. */
  lemma FencedReadSeesOneCatalog(start: State, steps: seq<Step>, i: nat, j: nat, h: Headers, f: Fence)
    requires Dormant(start) && i <= j <= |steps| && f != UNFENCED
    requires BeginRead(ReadStatus(At(start, steps, i)), h) == Some(f)
    requires FinishRead(ReadStatus(At(start, steps, j)), h, f)
    ensures forall t :: i <= t <= j ==>
      && Authority(At(start, steps, t), f)
      && Eligible(At(start, steps, t).documents) == Eligible(At(start, steps, i).documents)
      && SameCatalog(At(start, steps, i).documents, At(start, steps, t).documents)
  {
    hide Authority, Inv, SameCatalog;
    forall t | i <= t <= j
      ensures Authority(At(start, steps, t), f)
      ensures Eligible(At(start, steps, t).documents) == Eligible(At(start, steps, i).documents)
      ensures SameCatalog(At(start, steps, i).documents, At(start, steps, t).documents)
    {
      AuthorityBetween(start, steps, i, t, j, h, f);
    }
  }

  lemma AuthorityBetween(start: State, steps: seq<Step>, i: nat, t: nat, j: nat, h: Headers, f: Fence)
    requires Inv(start) && i <= t <= j <= |steps| && f != UNFENCED
    requires Authority(At(start, steps, i), f) || BeginRead(ReadStatus(At(start, steps, i)), h) == Some(f)
    requires Authority(At(start, steps, j), f) || BeginRead(ReadStatus(At(start, steps, j)), h) == Some(f)
    ensures Authority(At(start, steps, t), f)
    ensures Eligible(At(start, steps, t).documents) == Eligible(At(start, steps, i).documents)
    ensures SameCatalog(At(start, steps, i).documents, At(start, steps, t).documents)
  {
    RunLater(start, steps, i, t);
    RunLater(start, steps, t, j);
    if !Authority(At(start, steps, i), f) {
      StatusIsAuthority(At(start, steps, i), h, f);
    }
    if !Authority(At(start, steps, j), f) {
      StatusIsAuthority(At(start, steps, j), h, f);
    }
    CurrentEpochUsed(At(start, steps, i));
    CurrentEpochUsed(At(start, steps, t));
    SameFenceBetween(At(start, steps, i), At(start, steps, t), At(start, steps, j), f);
  }
}
