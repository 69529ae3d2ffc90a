/** The writers of query aggregates interleaved: bans and unbans beside rollups and re-evaluation batches, each
    a statement that reads the table at one instant and writes a row back at a later one. */
module ModerationRuns {
  import opened Wrappers
  import opened TextOrder
  import opened Reevaluation

  // ----- steps -----

  /** The rows a statement under way has read and still has to write. */
  datatype Flight =
    | Repairing(rows: map<string, Aggregate>)
    | Rolling(rows: map<string, Aggregate>)

  datatype World = World(table: Table, flights: map<nat, Flight>)

  /** A ban or unban is one row write. A rollup and a batch of a re-evaluation pass take their snapshot in one
      step and write each row in another; a pass is any number of batches of any size. A statement that reads
      under a used id stands for one that failed before. A ban of an empty query is refused. */
  datatype Step =
    | Ban(query: string)
    | Unban(query: string)
    | ReadRollup(id: nat, log: Log, settings: Settings, fromId: int, maxId: int)
    | ReadBatch(id: nat, log: Log, settings: Settings, lim: nat)
    | Write(id: nat, query: string)

  /** The row of a query banned before it had any traffic. */
  function Placeholder(k: string): Aggregate {
    Aggregate(k, 0, 0, Timing(0.0, 0, 0), false, false)
  }

  function BannedRow(t: Table, k: string): Aggregate {
    if k in t then t[k].(suggestible := false, banned := true) else Placeholder(k).(banned := true)
  }

  /** What a batch reads: its first lim changed rows, recounted. */
  ghost function Repairs(t: Table, log: Log, c: Settings, lim: nat): map<string, Aggregate> {
    map k | k in Elems(First(Changed(t, log, c), lim)) && k in t :: Recounted(t[k], Survivors(log, c, k), c)
  }

  predicate Holds(w: World, id: nat, k: string) {
    id in w.flights && k in w.flights[id].rows
  }

  /** The row a statement writes: a rollup replaces it whole, a batch leaves display form and ban as it finds them. */
  function RowFor(t: Table, f: Flight, k: string): Aggregate
    requires k in f.rows
  {
    if f.Repairing? && k in t then f.rows[k].(display := t[k].display, banned := t[k].banned) else f.rows[k]
  }

  /** A batch writes back existing rows only. */
  function Written(t: Table, f: Flight, k: string): Table
    requires k in f.rows
  {
    if f.Rolling? || k in t then t[k := RowFor(t, f, k)] else t
  }

  ghost function Next(w: World, step: Step): World {
    match step
    case Ban(k) => if k == "" then w else w.(table := w.table[k := BannedRow(w.table, k)])
    case Unban(k) => if k in w.table then w.(table := w.table[k := w.table[k].(banned := false)]) else w
    case ReadRollup(id, log, c, fromId, maxId) =>
      w.(flights := w.flights[id := Rolling(RolledRows(w.table, log, c, fromId, maxId))])
    case ReadBatch(id, log, c, lim) => w.(flights := w.flights[id := Repairing(Repairs(w.table, log, c, lim))])
    case Write(id, k) =>
      if Holds(w, id, k) then
        var f := w.flights[id];
        World(Written(w.table, f, k), w.flights[id := f.(rows := f.rows - {k})])
      else w
  }

  ghost function Exec(steps: seq<Step>): World {
    if steps == [] then World(map[], map[]) else Next(Exec(steps[..|steps| - 1]), steps[|steps| - 1])
  }

  /** The world before step n. */
  ghost function At(steps: seq<Step>, n: nat): World
    requires n <= |steps|
  {
    Exec(steps[..n])
  }

  lemma StepAt(steps: seq<Step>, n: nat)
    requires n < |steps|
    ensures At(steps, n + 1) == Next(At(steps, n), steps[n])
  {
    assert steps[..n + 1][..n] == steps[..n];
  }

  lemma AtEnd(steps: seq<Step>)
    ensures At(steps, |steps|) == Exec(steps) && At(steps, 0) == World(map[], map[])
  {
    assert steps[..|steps|] == steps;
  }

  // ----- an undisturbed statement -----

  ghost function WriteAll(w: World, id: nat, keys: seq<string>): World {
    if keys == [] then w else Next(WriteAll(w, id, keys[..|keys| - 1]), Write(id, keys[|keys| - 1]))
  }

  /** With nothing in between, the writes of a statement, in any order, do at once what it read. */
  lemma {:induction false} WritesAdd(w: World, id: nat, f: Flight, keys: seq<string>)
    requires id in w.flights && w.flights[id] == f && (f.Repairing? ==> f.rows.Keys <= w.table.Keys)
    requires NoDup(keys) && forall k :: k in keys ==> k in f.rows
    ensures var u := WriteAll(w, id, keys);
            && id in u.flights && u.flights[id] == f.(rows := f.rows - Elems(keys))
            && u.table == w.table + map k | k in keys :: RowFor(w.table, f, k)
  {
    if keys == [] {
      assert f.rows - Elems(keys) == f.rows;
    } else {
      var init, k := keys[..|keys| - 1], keys[|keys| - 1];
      assert keys == init + [k];
      forall i | 0 <= i < |init| ensures init[i] != k {
        assert keys[i] != keys[|init|];
      }
      WritesAdd(w, id, f, init);
      OneMoreWrite(w, WriteAll(w, id, init), id, f, init, k);
    }
  }

  lemma OneMoreWrite(w: World, v: World, id: nat, f: Flight, init: seq<string>, k: string)
    requires k in f.rows && k !in init && (forall x :: x in init ==> x in f.rows)
    requires f.Repairing? ==> f.rows.Keys <= w.table.Keys
    requires id in v.flights && v.flights[id] == f.(rows := f.rows - Elems(init))
    requires v.table == w.table + map x | x in init :: RowFor(w.table, f, x)
    ensures var u := Next(v, Write(id, k));
            && id in u.flights && u.flights[id] == f.(rows := f.rows - Elems(init + [k]))
            && u.table == w.table + map x | x in init + [k] :: RowFor(w.table, f, x)
  {
    assert Elems(init + [k]) == Elems(init) + {k} && k !in Elems(init);
    assert f.rows - Elems(init) - {k} == f.rows - (Elems(init) + {k});
    hide Elems;
    WrittenNext(w.table, v.table, f, v.flights[id], init, k);
    hide Written, RowFor;
  }

  lemma WrittenNext(t: Table, u: Table, f: Flight, g: Flight, init: seq<string>, k: string)
    requires k in f.rows && k in g.rows && g.rows[k] == f.rows[k] && (f.Rolling? <==> g.Rolling?) && k !in init
    requires forall x :: x in init ==> x in f.rows
    requires f.Repairing? ==> f.rows.Keys <= t.Keys
    requires u == t + map x | x in init :: RowFor(t, f, x)
    ensures Written(u, g, k) == t + map x | x in init + [k] :: RowFor(t, f, x)
  {
    assert Written(u, g, k) == u[k := RowFor(t, f, k)];
    hide Written, RowFor;
    var before, after := map x | x in init :: RowFor(t, f, x), map x | x in init + [k] :: RowFor(t, f, x);
    assert after == before[k := RowFor(t, f, k)];
  }

  /** A batch with nothing between its read and its writes is the one update that repairs its rows. */
  lemma BatchIsRepair(w: World, id: nat, log: Log, c: Settings, lim: nat, keys: seq<string>)
    requires NoDup(keys) && Elems(keys) == Elems(First(Changed(w.table, log, c), lim))
    ensures WriteAll(Next(w, ReadBatch(id, log, c, lim)), id, keys).table
         == Repaired(w.table, log, c, Elems(First(Changed(w.table, log, c), lim)))
  {
    hide Users, Survivors, First, Elems, Moves;
    var u := Next(w, ReadBatch(id, log, c, lim));
    FirstChanged(w.table, log, c, lim);
    forall k | k in keys ensures k in u.flights[id].rows { assert k in Elems(keys) by { InElems(keys, k); } }
    WritesAdd(u, id, u.flights[id], keys);
    forall k ensures k in keys <==> k in Elems(keys) { InElems(keys, k); }
    assert WriteAll(u, id, keys).table.Keys == w.table.Keys;
  }

  lemma InElems(keys: seq<string>, k: string)
    ensures k in Elems(keys) <==> k in keys
  {
  }

  lemma FirstChanged(t: Table, log: Log, c: Settings, lim: nat)
    ensures forall k :: k in Elems(First(Changed(t, log, c), lim)) ==> k in t && k in Changed(t, log, c)
  {
    var all := Changed(t, log, c);
    forall k | k in First(all, lim) ensures k in all {
      assert k in Elems(Enumerate(all));
    }
  }

  /** So is an undisturbed rollup. */
  lemma RollupIsUpsert(w: World, id: nat, log: Log, c: Settings, fromId: int, maxId: int, keys: seq<string>)
    requires NoDup(keys) && Elems(keys) == RolledRows(w.table, log, c, fromId, maxId).Keys
    ensures WriteAll(Next(w, ReadRollup(id, log, c, fromId, maxId)), id, keys).table
         == RolledUp(w.table, log, c, fromId, maxId)
  {
    hide RolledRows, Elems, WriteAll, NoDup;
    var u := Next(w, ReadRollup(id, log, c, fromId, maxId));
    forall k ensures k in keys <==> k in Elems(keys) { InElems(keys, k); }
    WritesAdd(u, id, u.flights[id], keys);
  }

  // ----- what holds of every run -----

  /** Every statement of the run uses at least this floor. */
  predicate FloorAtLeast(steps: seq<Step>, m: int) {
    forall n :: 0 <= n < |steps| ==> match steps[n]
      case ReadRollup(_, _, c, _, _) => c.minUsers >= m
      case ReadBatch(_, _, c, _) => c.minUsers >= m
      case _ => true
  }

  predicate Earned(rows: map<string, Aggregate>, m: int) {
    "" !in rows && forall k :: k in rows && rows[k].suggestible ==> rows[k].users >= m
  }

  predicate Earning(w: World, m: int) {
    Earned(w.table, m) && forall id :: id in w.flights ==> Earned(w.flights[id].rows, m)
  }

  lemma NextEarns(w: World, step: Step, m: int)
    requires Earning(w, m) && FloorAtLeast([step], m)
    ensures Earning(Next(w, step), m)
  {
    assert [step][0] == step;
    hide Survivors, Users, Changed, First, Recount;
  }

  /** Whatever the interleaving, no row is suggestible whose counted users miss the lowest floor any statement used. */
  lemma {:induction false} SuggestibleIsEarned(steps: seq<Step>, m: int)
    requires FloorAtLeast(steps, m)
    ensures Earning(Exec(steps), m)
    ensures forall k :: k in Exec(steps).table && Exec(steps).table[k].suggestible ==> Exec(steps).table[k].users >= m
  {
    hide Next;
    if steps != [] {
      var init, last := steps[..|steps| - 1], steps[|steps| - 1];
      SuggestibleIsEarned(init, m);
      assert [last][0] == steps[|steps| - 1];
      NextEarns(Exec(init), last, m);
    }
  }

  /** On every reachable table the dry run is exact: the apply loop over the same log changes as many rows. */
  lemma DryRunIsExact(steps: seq<Step>, m: int, log: Log, c: Settings)
    requires FloorAtLeast(steps, m)
    ensures var changed := Changed(Exec(steps).table, log, c);
            Min(|changed - {""}|, CAP) == Min(|changed|, CAP)
  {
    SuggestibleIsEarned(steps, m);
    DryRunAgrees(Changed(Exec(steps).table, log, c));
  }

  /** Only a table no run reaches makes the two reports differ: one changed row under the empty key. */
  lemma EmptyKeyHidesFromDryRun(log: Log, c: Settings)
    requires c.minUsers > 0
    ensures var t: Table := map["" := Placeholder("").(total := 1)];
            |Changed(t, log, c) - {""}| == 0 && |Changed(t, log, c)| == 1
  {
    var t: Table := map["" := Placeholder("").(total := 1)];
    assert Survivors(log, c, "") == {};
    assert Changed(t, log, c) == {""};
    assert Changed(t, log, c) - {""} == {};
  }

  // ----- one query's flags -----

  /** What a step does to one query's flags. */
  datatype Effect = Untouched | Bans | Lifts | Flags(want: bool) | Rolls(want: bool, ban: bool)

  function EffectOn(w: World, step: Step, k: string): Effect {
    match step
    case Ban(q) => if q == k && k != "" then Bans else Untouched
    case Unban(q) => if q == k then Lifts else Untouched
    case Write(id, q) =>
      if q != k || !Holds(w, id, k) then Untouched
      else
        (match w.flights[id]
         case Rolling(rows) => Rolls(rows[k].suggestible, rows[k].banned)
         case Repairing(rows) => if k in w.table then Flags(rows[k].suggestible) else Untouched)
    case _ => Untouched
  }

  predicate IsBanned(w: World, k: string) {
    k in w.table && w.table[k].banned
  }

  predicate IsSuggestible(w: World, k: string) {
    k in w.table && w.table[k].suggestible
  }

  predicate SetsBan(e: Effect) {
    e.Bans? || (e.Rolls? && e.ban)
  }

  predicate LiftsBan(e: Effect) {
    e.Lifts? || (e.Rolls? && !e.ban)
  }

  lemma NextFlags(w: World, step: Step, k: string)
    ensures var e, u := EffectOn(w, step, k), Next(w, step);
            && (IsBanned(u, k) <==> SetsBan(e) || (IsBanned(w, k) && !LiftsBan(e)))
            && (IsSuggestible(u, k) <==>
                  match e
                  case Bans => false
                  case Flags(want) => want
                  case Rolls(want, _) => want
                  case _ => IsSuggestible(w, k))
    ensures k in w.table ==> k in Next(w, step).table
  {
    hide Repairs, RolledRows;
  }

  // ----- a statement's read -----

  predicate ReadsUnder(step: Step, id: nat) {
    (step.ReadRollup? || step.ReadBatch?) && step.id == id
  }

  /** Statement id, which read at step i, still has query k to write before step n. */
  predicate Pending(steps: seq<Step>, i: nat, n: nat, id: nat, k: string) {
    i < n <= |steps| && ReadsUnder(steps[i], id)
    && forall p :: i < p < n ==> !ReadsUnder(steps[p], id) && steps[p] != Write(id, k)
  }

  /** Other steps leave what a statement holds of k alone; writing k drops it. */
  lemma NextHeld(w: World, step: Step, id: nat, k: string)
    requires !ReadsUnder(step, id)
    ensures Holds(Next(w, step), id, k) <==> Holds(w, id, k) && step != Write(id, k)
    ensures Holds(Next(w, step), id, k) ==>
      var f, g := Next(w, step).flights[id], w.flights[id]; f.rows[k] == g.rows[k] && (f.Rolling? <==> g.Rolling?)
  {
    hide Repairs, RolledRows, Written;
  }

  lemma PendingBefore(steps: seq<Step>, i: nat, n: nat, id: nat, k: string)
    requires Pending(steps, i, n, id, k)
    ensures i < n <= |steps|
    ensures i + 1 < n ==> Pending(steps, i, n - 1, id, k) && !ReadsUnder(steps[n - 1], id) && steps[n - 1] != Write(id, k)
  {
  }

  /** What a statement reads of k it still holds when it writes k. */
  lemma {:induction false} HeldSince(steps: seq<Step>, i: nat, n: nat, id: nat, k: string)
    requires Pending(steps, i, n, id, k) && Holds(At(steps, i + 1), id, k)
    ensures Holds(At(steps, n), id, k)
    ensures var f, g := At(steps, n).flights[id], At(steps, i + 1).flights[id];
            f.rows[k] == g.rows[k] && (f.Rolling? <==> g.Rolling?)
  {
    hide At, Next, Holds, Pending, ReadsUnder;
    PendingBefore(steps, i, n, id, k);
    if i + 1 < n {
      HeldSince(steps, i, n - 1, id, k);
      StepAt(steps, n - 1);
      NextHeld(At(steps, n - 1), steps[n - 1], id, k);
    }
  }

  lemma StillPending(steps: seq<Step>, i: nat, n: nat, id: nat, k: string)
    requires n < |steps| && Pending(steps, i, n, id, k) && !ReadsUnder(steps[n], id) && steps[n] != Write(id, k)
    ensures Pending(steps, i, n + 1, id, k)
  {
  }

  /** What a statement holds it has read. */
  lemma {:induction false} ReadBefore(steps: seq<Step>, n: nat, id: nat, k: string) returns (i: nat)
    requires n <= |steps| && Holds(At(steps, n), id, k)
    ensures Pending(steps, i, n, id, k) && Holds(At(steps, i + 1), id, k)
    ensures var f, g := At(steps, n).flights[id], At(steps, i + 1).flights[id];
            f.rows[k] == g.rows[k] && (f.Rolling? <==> g.Rolling?)
  {
    if n == 0 {
      AtEnd(steps);
    } else {
      hide At, Next;
      StepAt(steps, n - 1);
      if ReadsUnder(steps[n - 1], id) {
        i := n - 1;
      } else {
        NextHeld(At(steps, n - 1), steps[n - 1], id, k);
        i := ReadBefore(steps, n - 1, id, k);
        StillPending(steps, i, n - 1, id, k);
      }
    }
  }

  /** A batch that wants k flagged found it unbanned, a rollup carries k's ban as it found it, and wants no
      banned row flagged. */
  lemma ReadTells(steps: seq<Step>, i: nat, id: nat, k: string)
    requires i < |steps| && ReadsUnder(steps[i], id) && Holds(At(steps, i + 1), id, k)
    ensures var w, row := At(steps, i), At(steps, i + 1).flights[id].rows[k];
            && (At(steps, i + 1).flights[id].Rolling? <==> steps[i].ReadRollup?)
            && (steps[i].ReadBatch? ==> k in w.table && (row.suggestible ==> !IsBanned(w, k)))
            && (steps[i].ReadRollup? ==> (row.banned <==> IsBanned(w, k)) && !(row.suggestible && row.banned))
            && At(steps, i + 1).table == w.table
  {
    hide At, Next, Holds;
    StepAt(steps, i);
    ReadRow(At(steps, i), steps[i], id, k);
  }

  lemma ReadRow(w: World, step: Step, id: nat, k: string)
    requires ReadsUnder(step, id) && Holds(Next(w, step), id, k)
    ensures var u, row := Next(w, step), Next(w, step).flights[id].rows[k];
            && (u.flights[id].Rolling? <==> step.ReadRollup?)
            && (step.ReadBatch? ==> k in w.table && (row.suggestible ==> !IsBanned(w, k)))
            && (step.ReadRollup? ==> (row.banned <==> IsBanned(w, k)) && !(row.suggestible && row.banned))
            && u.table == w.table
  {
    hide Users, Survivors, First, Changed, Recount, Reevaluation.Batch;
  }

  lemma {:induction false} KeysStay(steps: seq<Step>, i: nat, n: nat, k: string)
    requires i <= n <= |steps| && k in At(steps, i).table
    ensures k in At(steps, n).table
  {
    if i < n {
      KeysStay(steps, i, n - 1, k);
      StepAt(steps, n - 1);
      NextFlags(At(steps, n - 1), steps[n - 1], k);
    }
  }

  // ----- bans overtaken by a write -----

  /** A batch read k at step i and wanted it flagged, k's ban was set at step m and not lifted again, and the
      batch wrote k at step j. */
  ghost predicate BatchOvertakes(steps: seq<Step>, k: string, i: nat, m: nat, j: nat) {
    && i < m < j < |steps| && steps[i].ReadBatch? && steps[j] == Write(steps[i].id, k)
    && Pending(steps, i, j, steps[i].id, k)
    && Holds(At(steps, i + 1), steps[i].id, k) && At(steps, i + 1).flights[steps[i].id].rows[k].suggestible
    && SetsBan(EffectOn(At(steps, m), steps[m], k))
    && forall p :: m < p < j ==> !LiftsBan(EffectOn(At(steps, p), steps[p], k))
  }

  /** Nothing touches k from step n on. */
  ghost predicate Quiet(steps: seq<Step>, k: string, n: nat) {
    forall p :: n <= p < |steps| ==> EffectOn(At(steps, p), steps[p], k) == Untouched
  }

  /** A row is suggestible and banned exactly when the last write to touch it is that of a batch which had wanted
      it flagged, and its ban was set between the batch's read and this write. */
  lemma SuggestedWhileBannedIff(steps: seq<Step>, k: string)
    ensures IsSuggestible(Exec(steps), k) && IsBanned(Exec(steps), k)
       <==> exists i: nat, m: nat, j: nat :: BatchOvertakes(steps, k, i, m, j) && Quiet(steps, k, j + 1)
  {
    AtEnd(steps);
    hide IsSuggestible, IsBanned, BatchOvertakes, Exec, At;
    if IsSuggestible(Exec(steps), k) && IsBanned(Exec(steps), k) {
      var i, m, j := Overtaken(steps, |steps|, k);
    }
    if i: nat, m: nat, j: nat :| BatchOvertakes(steps, k, i, m, j) && Quiet(steps, k, j + 1) {
      OvertakingFlags(steps, k, i, m, j);
      QuietKeeps(steps, k, j + 1, |steps|);
    }
  }

  lemma {:induction false} Overtaken(steps: seq<Step>, n: nat, k: string) returns (i: nat, m: nat, j: nat)
    requires n <= |steps| && IsSuggestible(At(steps, n), k) && IsBanned(At(steps, n), k)
    requires forall p :: n <= p < |steps| ==> EffectOn(At(steps, p), steps[p], k) == Untouched
    ensures BatchOvertakes(steps, k, i, m, j) && Quiet(steps, k, j + 1)
  {
    hide At, Next;
    if n == 0 {
      AtEnd(steps);
    } else {
      StepAt(steps, n - 1);
      NextFlags(At(steps, n - 1), steps[n - 1], k);
      var e := EffectOn(At(steps, n - 1), steps[n - 1], k);
      if e == Untouched {
        i, m, j := Overtaken(steps, n - 1, k);
      } else {
        j := n - 1;
        i := OvertakingRead(steps, j, k);
        m := BanSetBetween(steps, i, j, k);
      }
    }
  }

  /** The write at step j that leaves k flagged and banned read k before, unbanned. */
  lemma OvertakingRead(steps: seq<Step>, j: nat, k: string) returns (i: nat)
    requires j < |steps| && IsSuggestible(At(steps, j + 1), k) && IsBanned(At(steps, j + 1), k)
    requires EffectOn(At(steps, j), steps[j], k) != Untouched
    ensures i < j && steps[i].ReadBatch? && steps[j] == Write(steps[i].id, k) && Pending(steps, i, j, steps[i].id, k)
    ensures Holds(At(steps, i + 1), steps[i].id, k) && At(steps, i + 1).flights[steps[i].id].rows[k].suggestible
    ensures !IsBanned(At(steps, i + 1), k) && IsBanned(At(steps, j), k)
  {
    StepAt(steps, j);
    NextFlags(At(steps, j), steps[j], k);
    hide At, Next;
    var id := steps[j].id;
    i := ReadBefore(steps, j, id, k);
    ReadTells(steps, i, id, k);
  }

  lemma {:induction false} BanSetBetween(steps: seq<Step>, i: nat, j: nat, k: string) returns (m: nat)
    requires i < j <= |steps| && !IsBanned(At(steps, i + 1), k) && IsBanned(At(steps, j), k)
    ensures i < m < j && SetsBan(EffectOn(At(steps, m), steps[m], k))
    ensures forall p :: m < p < j ==> !LiftsBan(EffectOn(At(steps, p), steps[p], k))
  {
    hide At, Next, IsBanned, EffectOn, SetsBan, LiftsBan;
    StepAt(steps, j - 1);
    NextFlags(At(steps, j - 1), steps[j - 1], k);
    if SetsBan(EffectOn(At(steps, j - 1), steps[j - 1], k)) && i < j - 1 {
      m := j - 1;
    } else {
      m := BanSetBetween(steps, i, j - 1, k);
    }
  }

  lemma OvertakingFlags(steps: seq<Step>, k: string, i: nat, m: nat, j: nat)
    requires BatchOvertakes(steps, k, i, m, j)
    ensures j < |steps| && IsSuggestible(At(steps, j + 1), k) && IsBanned(At(steps, j + 1), k)
  {
    hide At, Next, Pending, Holds, ReadsUnder;
    OvertakingEffect(steps, k, i, m, j);
    BanHolds(steps, m, j, k);
    StepAt(steps, j);
    NextFlags(At(steps, j), steps[j], k);
  }

  lemma OvertakingEffect(steps: seq<Step>, k: string, i: nat, m: nat, j: nat)
    requires BatchOvertakes(steps, k, i, m, j)
    ensures EffectOn(At(steps, j), steps[j], k) == Flags(true)
  {
    var id := steps[i].id;
    hide At, Next, SetsBan, LiftsBan;
    HeldSince(steps, i, j, id, k);
    ReadTells(steps, i, id, k);
    KeysStay(steps, i, j, k);
  }

  lemma {:induction false} BanHolds(steps: seq<Step>, m: nat, n: nat, k: string)
    requires m < n <= |steps| && SetsBan(EffectOn(At(steps, m), steps[m], k))
    requires forall p :: m < p < n ==> !LiftsBan(EffectOn(At(steps, p), steps[p], k))
    ensures IsBanned(At(steps, n), k)
  {
    hide At, Next, IsBanned, EffectOn, SetsBan, LiftsBan;
    StepAt(steps, n - 1);
    NextFlags(At(steps, n - 1), steps[n - 1], k);
    if m < n - 1 {
      BanHolds(steps, m, n - 1, k);
    }
  }

  lemma {:induction false} QuietKeeps(steps: seq<Step>, k: string, j: nat, n: nat)
    requires j <= n <= |steps| && Quiet(steps, k, j)
    ensures IsSuggestible(At(steps, n), k) == IsSuggestible(At(steps, j), k)
    ensures IsBanned(At(steps, n), k) == IsBanned(At(steps, j), k)
  {
    hide At, Next, IsBanned, IsSuggestible;
    if j < n {
      QuietKeeps(steps, k, j, n - 1);
      StepAt(steps, n - 1);
      NextFlags(At(steps, n - 1), steps[n - 1], k);
    }
  }

  /** A rollup read k at step i and found it unbanned, and wrote it at step j. */
  ghost predicate RollupOvertakes(steps: seq<Step>, k: string, i: nat, j: nat) {
    && i < j < |steps| && steps[i].ReadRollup? && steps[j] == Write(steps[i].id, k)
    && Pending(steps, i, j, steps[i].id, k)
    && Holds(At(steps, i + 1), steps[i].id, k) && !IsBanned(At(steps, i), k)
  }

  /** A ban that no unban follows stands at every later instant exactly when no rollup that had found the query
      unbanned before the ban writes it after. */
  lemma BanStandsIff(steps: seq<Step>, k: string, m: nat)
    requires m < |steps| && steps[m] == Ban(k) && k != "" && forall p :: m < p < |steps| ==> steps[p] != Unban(k)
    ensures (forall n :: m < n <= |steps| ==> IsBanned(At(steps, n), k))
       <==> !exists i: nat, j: nat :: i < m < j && RollupOvertakes(steps, k, i, j)
  {
    hide At, Next, RollupOvertakes, IsBanned;
    if i: nat, j: nat :| i < m < j && RollupOvertakes(steps, k, i, j) {
      RollupLifts(steps, k, i, j);
    }
    if n :| m < n <= |steps| && !IsBanned(At(steps, n), k) {
      var i, j := LostBan(steps, k, m, n);
    }
  }

  lemma RollupLifts(steps: seq<Step>, k: string, i: nat, j: nat)
    requires RollupOvertakes(steps, k, i, j)
    ensures j < |steps| && !IsBanned(At(steps, j + 1), k)
  {
    var id := steps[i].id;
    hide At, Next;
    HeldSince(steps, i, j, id, k);
    ReadTells(steps, i, id, k);
    StepAt(steps, j);
    NextFlags(At(steps, j), steps[j], k);
  }

  /** Before the first instant the ban is gone, a rollup that had read before it has written. */
  lemma {:induction false} LostBan(steps: seq<Step>, k: string, m: nat, n: nat) returns (i: nat, j: nat)
    requires m < n <= |steps| && !IsBanned(At(steps, n), k)
    requires steps[m] == Ban(k) && k != "" && forall p :: m < p < |steps| ==> steps[p] != Unban(k)
    ensures i < m < j && RollupOvertakes(steps, k, i, j)
  {
    hide At, Next, IsBanned, RollupOvertakes;
    if m == n - 1 {
      StepAt(steps, m);
      NextFlags(At(steps, m), steps[m], k);
    } else if !IsBanned(At(steps, n - 1), k) {
      i, j := LostBan(steps, k, m, n - 1);
    } else {
      j := n - 1;
      i := LiftingRead(steps, j, k);
      if i > m {
        i, j := LostBan(steps, k, m, i);
      }
    }
  }

  /** Short of an unban, only a rollup that read k unbanned lifts its ban. */
  lemma LiftingRead(steps: seq<Step>, j: nat, k: string) returns (i: nat)
    requires j < |steps| && IsBanned(At(steps, j), k) && !IsBanned(At(steps, j + 1), k) && steps[j] != Unban(k)
    ensures i < j && RollupOvertakes(steps, k, i, j) && steps[i].ReadRollup? && !IsBanned(At(steps, i), k)
  {
    StepAt(steps, j);
    NextFlags(At(steps, j), steps[j], k);
    hide At, Next, IsBanned;
    var id := steps[j].id;
    i := ReadBefore(steps, j, id, k);
    ReadTells(steps, i, id, k);
  }

  // ----- undisturbed moderation -----

  /** k is neither banned nor unbanned while a statement under way holds it. */
  ghost predicate Undisturbed(steps: seq<Step>, k: string) {
    forall n, id :: 0 <= n < |steps| && (steps[n] == Ban(k) || steps[n] == Unban(k)) ==> !Holds(At(steps, n), id, k)
  }

  /** The last moderation of k is a ban. */
  predicate LastBanned(steps: seq<Step>, k: string) {
    if steps == [] then false
    else
      var step := steps[|steps| - 1];
      step == Ban(k) || (step != Unban(k) && LastBanned(steps[..|steps| - 1], k))
  }

  /** What a statement is to write of k agrees with the row as it stands. */
  predicate Agrees(w: World, id: nat, k: string)
    requires Holds(w, id, k)
  {
    var row := w.flights[id].rows[k];
    if w.flights[id].Rolling? then (row.banned <==> IsBanned(w, k)) && !(row.suggestible && row.banned)
    else row.suggestible ==> !IsBanned(w, k)
  }

  ghost predicate InStep(w: World, k: string) {
    && !(IsSuggestible(w, k) && IsBanned(w, k))
    && forall id :: Holds(w, id, k) ==> Agrees(w, id, k)
  }

  lemma NextInStep(w: World, step: Step, k: string)
    requires InStep(w, k) && ((step == Ban(k) || step == Unban(k)) ==> forall id :: !Holds(w, id, k))
    ensures InStep(Next(w, step), k)
  {
    hide Next, Holds, IsBanned, IsSuggestible;
    var u := Next(w, step);
    NextFlags(w, step, k);
    forall id | Holds(u, id, k) ensures Agrees(u, id, k) {
      if ReadsUnder(step, id) {
        ReadRow(w, step, id, k);
        NextFlags(w, step, k);
      } else {
        NextHeld(w, step, id, k);
        assert Agrees(w, id, k);
      }
    }
  }

  /** Where no ban or unban of a query falls between a statement's read of it and its write, the query is never
      both suggestible and banned, and it is banned exactly when its last moderation was a ban. */
  lemma {:induction false} UndisturbedModeration(steps: seq<Step>, k: string)
    requires k != "" && Undisturbed(steps, k)
    ensures InStep(Exec(steps), k)
    ensures !(IsSuggestible(Exec(steps), k) && IsBanned(Exec(steps), k))
    ensures IsBanned(Exec(steps), k) <==> LastBanned(steps, k)
  {
    if steps != [] {
      var init, last := steps[..|steps| - 1], steps[|steps| - 1];
      UndisturbedPrefix(steps, k);
      hide Undisturbed, Next, InStep;
      UndisturbedModeration(init, k);
      NextInStep(Exec(init), last, k);
      InStepBan(Exec(init), last, k);
    }
    hide Holds;
  }

  lemma UndisturbedPrefix(steps: seq<Step>, k: string)
    requires steps != [] && Undisturbed(steps, k)
    ensures var init, last := steps[..|steps| - 1], steps[|steps| - 1];
            Undisturbed(init, k) && ((last == Ban(k) || last == Unban(k)) ==> forall id :: !Holds(Exec(init), id, k))
  {
    hide Exec, Holds;
    var init := steps[..|steps| - 1];
    forall n, id | 0 <= n < |init| && (init[n] == Ban(k) || init[n] == Unban(k)) ensures !Holds(At(init, n), id, k) {
      assert init[..n] == steps[..n] && init[n] == steps[n];
      assert !Holds(At(steps, n), id, k);
    }
    if steps[|steps| - 1] == Ban(k) || steps[|steps| - 1] == Unban(k) {
      forall id ensures !Holds(Exec(init), id, k) { assert !Holds(At(steps, |steps| - 1), id, k); }
    }
  }

  lemma InStepBan(w: World, step: Step, k: string)
    requires InStep(w, k) && k != ""
    ensures IsBanned(Next(w, step), k) <==> step == Ban(k) || (step != Unban(k) && IsBanned(w, k))
  {
    NextFlags(w, step, k);
    hide Next;
  }

  // ----- two runs -----

  /** A query over the floor, banned while a batch that wanted it is under way, ends suggestible and banned. */
  lemma BanDuringBatch(log: Log, c: Settings, k: string, lim: nat)
    requires k != "" && lim > 0 && Users(Survivors(log, c, k)) >= c.minUsers
    ensures var steps := [Ban(k), Unban(k), ReadBatch(0, log, c, lim), Ban(k), Write(0, k)];
            IsSuggestible(Exec(steps), k) && IsBanned(Exec(steps), k)
  {
    var steps := [Ban(k), Unban(k), ReadBatch(0, log, c, lim), Ban(k), Write(0, k)];
    hide At, Exec, Repairs, Survivors, Users;
    UnbannedPlaceholder(log, c, k, lim);
    AtEnd(steps);
    StepAt(steps, 0);
    StepAt(steps, 1);
    StepAt(steps, 2);
    assert At(steps, 2).table == map[k := Placeholder(k)];
    assert BatchOvertakes(steps, k, 2, 3, 4);
    OvertakingFlags(steps, k, 2, 3, 4);
  }

  lemma UnbannedPlaceholder(log: Log, c: Settings, k: string, lim: nat)
    requires k != "" && lim > 0 && Users(Survivors(log, c, k)) >= c.minUsers
    ensures var r := Repairs(map[k := Placeholder(k)], log, c, lim); k in r && r[k].suggestible
  {
    var t: Table := map[k := Placeholder(k)];
    assert Changed(t, log, c) == {k};
    assert First({k}, lim) == Enumerate({k}) && k in Elems(Enumerate({k}));
    hide Survivors, Users;
  }

  /** A query banned while the rollup that first counts it is under way ends unbanned. */
  lemma BanDuringRollup(log: Log, c: Settings, k: string, fromId: int, maxId: int)
    requires k in Batch(log, fromId, maxId) && Recount(log, c, k) != {}
    ensures var steps := [ReadRollup(0, log, c, fromId, maxId), Ban(k), Write(0, k)];
            LastBanned(steps, k) && !IsBanned(Exec(steps), k)
  {
    var steps := [ReadRollup(0, log, c, fromId, maxId), Ban(k), Write(0, k)];
    hide At, Exec, RolledRows, LastBanned, RollupOvertakes, Recount, Reevaluation.Batch;
    BannedBeforeLast(steps, k);
    NewRow(log, c, k, fromId, maxId);
    AtEnd(steps);
    StepAt(steps, 0);
    FirstRollup(steps, k);
    RollupLifts(steps, k, 0, 2);
  }

  lemma BannedBeforeLast(steps: seq<Step>, k: string)
    requires |steps| == 3 && steps[1] == Ban(k) && steps[2].Write?
    ensures LastBanned(steps, k)
  {
    assert LastBanned(steps[..2], k);
  }

  lemma FirstRollup(steps: seq<Step>, k: string)
    requires |steps| == 3 && steps[0].ReadRollup? && steps[1] == Ban(k) && steps[2] == Write(steps[0].id, k)
    requires !IsBanned(At(steps, 0), k) && Holds(At(steps, 1), steps[0].id, k)
    ensures RollupOvertakes(steps, k, 0, 2)
  {
    hide At;
  }

  lemma NewRow(log: Log, c: Settings, k: string, fromId: int, maxId: int)
    requires k in Batch(log, fromId, maxId) && Recount(log, c, k) != {}
    ensures k in RolledRows(map[], log, c, fromId, maxId)
  {
    hide Users, Recount, Reevaluation.Batch;
  }
}
