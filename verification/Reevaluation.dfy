/** Suggestibility: the nightly re-evaluation (dry run and apply) and the rollup it must agree with. */
module Reevaluation {
  import opened Wrappers
  import opened TextOrder
  import opened SubjectFloor

  /** A query_log row. */
  datatype LogRow = LogRow(id: int, query: string, display: string, who: Person, at: int)

  type Log = set<LogRow>

  datatype Timing = Timing(freq: real, firstSeen: int, lastSeen: int)

  /** A query_aggregates row, under its normalized query. */
  datatype Aggregate = Aggregate(
    display: string, users: int, total: int, timing: Timing, suggestible: bool, banned: bool)

  type Table = map<string, Aggregate>

  /** A pass's retention window and floor; measure and latest stand for the shared decayed_freq, first_seen
      and last_seen expressions and the most recent display form, each a function of a query's rows. */
  datatype Settings = Settings(windowStart: int, minUsers: int, measure: Log -> Timing, latest: Log -> string)

  const BATCH := 10000
  const MAX_BATCHES := 100
  const CAP := 1000000
  const SAMPLE := 10

  // ----- recounting one row -----

  function Survivors(log: Log, c: Settings, k: string): Log {
    set r | r in log && r.query == k && k != "" && r.at >= c.windowStart
  }

  function Users(rows: Log): nat {
    Subjects(set r | r in rows :: r.who)
  }

  function Recounted(a: Aggregate, rows: Log, c: Settings): Aggregate {
    a.(users := Users(rows), total := |rows|,
       timing := if rows == {} then a.timing.(freq := 0.0) else c.measure(rows),
       suggestible := Users(rows) >= c.minUsers && !a.banned)
  }

  /** Exact integers and the flag decide; the timing rides along. */
  predicate Moves(a: Aggregate, rows: Log, c: Settings) {
    var b := Recounted(a, rows, c);
    b.suggestible != a.suggestible || b.total != a.total || b.users != a.users
  }

  function Changed(t: Table, log: Log, c: Settings): set<string> {
    set k | k in t && Moves(t[k], Survivors(log, c, k), c)
  }

  function Repaired(t: Table, log: Log, c: Settings, ks: set<string>): Table {
    map k | k in t :: if k in ks then Recounted(t[k], Survivors(log, c, k), c) else t[k]
  }

  /** Deleting log rows never promotes a query. */
  lemma DeletionNeverPromotes(a: Aggregate, log: Log, kept: Log, c: Settings, k: string)
    requires kept <= log
    ensures Recounted(a, Survivors(kept, c, k), c).suggestible ==> Recounted(a, Survivors(log, c, k), c).suggestible
    ensures Users(Survivors(kept, c, k)) <= Users(Survivors(log, c, k))
  {
    hide Subjects;
    FewerPeople(set r | r in Survivors(kept, c, k) :: r.who, set r | r in Survivors(log, c, k) :: r.who);
  }

  // ----- ordered pages -----

  function Min(a: nat, b: nat): nat {
    if a < b then a else b
  }

  /** The first keys of a set, in order. */
  ghost function First(s: set<string>, lim: nat): seq<string> {
    Enumerate(s)[..Min(lim, |s|)]
  }

  function Above(s: set<string>, after: string): set<string> {
    set k | k in s && Less(after, k)
  }

  method Ordered(s: set<string>) returns (r: seq<string>)
    ensures r == Enumerate(s)
  {
    r := [];
    var todo := s;
    while todo != {}
      invariant todo <= s && Ascending(r) && Elems(r) == s - todo
      decreases |todo|
    {
      var x :| x in todo;
      InsertElems(x, r);
      r := Insert(x, r);
      todo := todo - {x};
    }
    AscendingUnique(r, Enumerate(s));
  }

  lemma SplitAscending(all: seq<string>, n: nat)
    requires Ascending(all) && n <= |all|
    ensures Ascending(all[n..]) && Elems(all[n..]) == Elems(all) - Elems(all[..n])
    ensures Elems(all[..n]) <= Elems(all)
    ensures n > 0 ==> forall x :: x in all ==> (Less(all[n - 1], x) <==> x in all[n..])
  {
    assert all == all[..n] + all[n..];
    forall x | x in all[n..] ensures x !in all[..n] {
      var j :| n <= j < |all| && all[j] == x;
      forall i | 0 <= i < n ensures all[i] != x {
        LessTrichotomy(all[i], x);
      }
    }
    if n > 0 {
      forall i | 0 <= i < |all| ensures Less(all[n - 1], all[i]) <==> all[i] in all[n..] {
        LessTrichotomy(all[n - 1], all[i]);
        if i >= n { assert all[i] == all[n..][i - n]; }
      }
    }
  }

  /** Dropping the first n keys of a set leaves the rest of its enumeration. */
  lemma EnumerateRest(s: set<string>, n: nat)
    requires n <= |s|
    ensures Enumerate(s - Elems(Enumerate(s)[..n])) == Enumerate(s)[n..]
    ensures |s - Elems(Enumerate(s)[..n])| == |s| - n
    ensures n > 0 ==> Above(s, Enumerate(s)[n - 1]) == s - Elems(Enumerate(s)[..n])
  {
    var all := Enumerate(s);
    SplitAscending(all, n);
    hide Ascending, Elems, Less;
    AscendingUnique(all[n..], Enumerate(s - Elems(all[..n])));
    if n > 0 {
      AboveLast(s, n);
    }
  }

  lemma AboveLast(s: set<string>, n: nat)
    requires 0 < n <= |s|
    ensures Above(s, Enumerate(s)[n - 1]) == s - Elems(Enumerate(s)[..n])
  {
    var all := Enumerate(s);
    SplitAscending(all, n);
    hide Ascending, Less;
    forall x | x in s ensures Less(all[n - 1], x) <==> x !in Elems(all[..n]) {
      assert x in Elems(all);
      assert x in Elems(all[n..]) <==> x in all[n..];
    }
  }

  lemma AboveEmpty(s: set<string>)
    ensures Above(s, "") == s - {""}
  {
    forall k | k != "" ensures Less("", k) {
      LessTrichotomy("", k);
    }
    LessTrichotomy("", "");
  }

  // ----- the pass -----

  /** A changed row under the values it takes. */
  datatype Change = Change(query: string, suggestible: bool, users: nat, total: nat)

  function ChangeOf(t: Table, log: Log, c: Settings, k: string): Change {
    var rows := Survivors(log, c, k);
    Change(k, Users(rows) >= c.minUsers && !(k in t && t[k].banned), Users(rows), |rows|)
  }

  function Changes(t: Table, log: Log, c: Settings, ks: seq<string>): (r: seq<Change>)
    ensures |r| == |ks| && forall i :: 0 <= i < |ks| ==> r[i].query == ks[i]
  {
    seq(|ks|, i requires 0 <= i < |ks| => ChangeOf(t, log, c, ks[i]))
  }

  /** The preview's values are the ones the row takes when it is repaired. */
  lemma PreviewTellsTheRepair(t: Table, log: Log, c: Settings, ks: set<string>, k: string)
    requires k in t && k in ks
    ensures var row := Repaired(t, log, c, ks)[k];
            ChangeOf(t, log, c, k) == Change(k, row.suggestible, row.users, row.total)
  {
  }

  datatype Report = Report(dryRun: bool, skipped: bool, changed: nat, sample: seq<Change>)

  /** The log holds no row to recount in the window. */
  predicate EmptyLedger(log: Log, c: Settings) {
    forall r :: r in log ==> r.at < c.windowStart || r.query == ""
  }

  method Preview(t: Table, log: Log, c: Settings, after: string, lim: nat) returns (rows: seq<Change>)
    ensures rows == Changes(t, log, c, First(Above(Changed(t, log, c), after), lim))
  {
    var changed := Above(Changed(t, log, c), after);
    var keys := Ordered(changed);
    rows := Changes(t, log, c, keys[..Min(lim, |changed|)]);
  }

  /** Pages through every changed row with a non-empty key, up to the cap. */
  method DryRun(t: Table, log: Log, c: Settings) returns (rep: Report)
    ensures var all := Changed(t, log, c) - {""};
            rep == Report(true, false, Min(|all|, CAP), Changes(t, log, c, First(all, SAMPLE)))
  {
    hide First, PagedTo, Changed, Above, Less, Enumerate, ChangeOf, Ascending;
    ghost var moving := Changed(t, log, c);
    ghost var all := Enumerate(moving - {""});
    FirstPage(moving);
    assert all[..0] == [];
    var sample: seq<Change>, changed, after, batch := [], 0, "", 0;
    while batch < MAX_BATCHES
      invariant 0 <= batch <= MAX_BATCHES && changed == batch * BATCH
      invariant changed <= |all| && PagedTo(moving, changed, after)
      invariant sample == Changes(t, log, c, all[..Min(SAMPLE, changed)])
    {
      var rows := Preview(t, log, c, after, BATCH);
      ghost var keys := First(Above(moving, after), BATCH);
      NextPage(moving, all, changed, after, keys);
      SampleGrows(t, log, c, all, changed, keys);
      sample := sample + rows[..Min(SAMPLE - |sample|, |rows|)];
      changed := changed + |rows|;
      if |rows| < BATCH {
        break;
      }
      after := rows[|rows| - 1].query;
      batch := batch + 1;
    }
    FirstIs(moving - {""}, SAMPLE);
    rep := Report(true, false, changed, sample);
  }

  /** The cursor stands after the first done non-empty keys. */
  ghost predicate PagedTo(s: set<string>, done: nat, after: string) {
    && done <= |s - {""}|
    && Above(s, after) == s - {""} - Elems(Enumerate(s - {""})[..done])
  }

  lemma FirstPage(s: set<string>)
    ensures PagedTo(s, 0, "")
  {
    AboveEmpty(s);
    assert Elems(Enumerate(s - {""})[..0]) == {};
  }

  /** A page is the next slice, and its last key is the next cursor. */
  lemma NextPage(s: set<string>, all: seq<string>, done: nat, after: string, rows: seq<string>)
    requires PagedTo(s, done, after) && all == Enumerate(s - {""}) && rows == First(Above(s, after), BATCH)
    ensures done + |rows| <= |all| && rows == all[done..done + |rows|]
    ensures |rows| < BATCH ==> done + |rows| == |all|
    ensures |rows| <= BATCH
    ensures rows != [] ==> PagedTo(s, done + |rows|, rows[|rows| - 1])
  {
    hide Ascending, Less, Elems, Enumerate;
    EnumerateRest(s - {""}, done);
    FirstIs(Above(s, after), BATCH);
    SliceOfRest(all, Enumerate(Above(s, after)), done, BATCH);
    if rows != [] {
      EnumerateRest(s - {""}, done + |rows|);
      NotEmptyKey(s, all, done + |rows| - 1);
      SkipsEmpty(s, all[done + |rows| - 1]);
    }
  }

  lemma NotEmptyKey(s: set<string>, all: seq<string>, k: nat)
    requires all == Enumerate(s - {""}) && k < |all|
    ensures all[k] != ""
  {
    assert all[k] in Elems(all);
  }

  lemma FirstIs(s: set<string>, lim: nat)
    ensures First(s, lim) == Enumerate(s)[..Min(lim, |s|)]
  {
  }

  lemma SliceOfRest(all: seq<string>, rest: seq<string>, done: nat, lim: nat)
    requires done <= |all| && rest == all[done..]
    ensures var n := Min(lim, |rest|);
            rest[..n] == all[done..done + n] && (n > 0 ==> rest[..n][n - 1] == all[done + n - 1])
  {
  }

  lemma SkipsEmpty(s: set<string>, after: string)
    requires after != ""
    ensures Above(s, after) == Above(s - {""}, after)
  {
    assert !Less(after, "");
  }

  lemma SampleGrows(t: Table, log: Log, c: Settings, all: seq<string>, done: nat, keys: seq<string>)
    requires done + |keys| <= |all| && keys == all[done..done + |keys|]
    ensures Changes(t, log, c, all[..Min(SAMPLE, done)]) + Changes(t, log, c, keys)[..Min(SAMPLE - Min(SAMPLE, done), |keys|)]
         == Changes(t, log, c, all[..Min(SAMPLE, done + |keys|)])
  {
    hide ChangeOf;
    var taken := Min(SAMPLE - Min(SAMPLE, done), |keys|);
    assert all[..Min(SAMPLE, done)] + keys[..taken] == all[..Min(SAMPLE, done + |keys|)];
    assert Changes(t, log, c, keys)[..taken] == Changes(t, log, c, keys[..taken]);
  }

  // ----- what the pass leaves -----

  lemma RepairSettles(t: Table, log: Log, c: Settings, ks: set<string>)
    ensures Changed(Repaired(t, log, c, ks), log, c) == Changed(t, log, c) - ks
  {
    hide Survivors, Users;
  }

  lemma RepairTwice(t: Table, log: Log, c: Settings, a: set<string>, b: set<string>)
    requires a !! b
    ensures Repaired(Repaired(t, log, c, a), log, c, b) == Repaired(t, log, c, a + b)
  {
    hide Survivors, Recounted;
  }

  class QueryAggregates {
    var table: Table

    /** One UPDATE of the first lim changed rows. */
    method ReevaluateBatch(log: Log, c: Settings, lim: nat) returns (n: nat)
      modifies this
      ensures table == Repaired(old(table), log, c, Elems(First(Changed(old(table), log, c), lim)))
      ensures n == Min(lim, |Changed(old(table), log, c)|)
    {
      var changed := Changed(table, log, c);
      var rows := Ordered(changed);
      rows := rows[..Min(lim, |changed|)];
      table := Repaired(table, log, c, Elems(rows));
      n := |rows|;
    }

    /** Repairs the first CAP changed rows, empty key included. */
    method ApplyLoop(log: Log, c: Settings) returns (changed: nat)
      modifies this
      ensures var all := Changed(old(table), log, c);
              && changed == Min(|all|, CAP)
              && table == Repaired(old(table), log, c, Elems(First(all, CAP)))
    {
      hide Repaired, Changed, First, Elems;
      ghost var was, all := table, Enumerate(Changed(table, log, c));
      changed := 0;
      var batch := 0;
      NothingRepaired(was, log, c, all);
      while batch < MAX_BATCHES
        invariant 0 <= batch <= MAX_BATCHES && changed == batch * BATCH <= |all|
        invariant table == Repaired(was, log, c, Elems(all[..changed]))
      {
        NextBatch(was, log, c, all, changed, table);
        var n := ReevaluateBatch(log, c, BATCH);
        changed := changed + n;
        if n < BATCH {
          break;
        }
        batch := batch + 1;
      }
      FirstIs(Changed(was, log, c), CAP);
    }

    method Reevaluate(log: Log, c: Settings, dryRun: bool) returns (rep: Report)
      modifies this
      ensures rep.dryRun == dryRun && (rep.skipped <==> EmptyLedger(log, c))
      ensures rep.skipped ==> table == old(table) && rep.changed == 0 && rep.sample == []
      ensures !rep.skipped ==> rep.sample == Changes(old(table), log, c, First(Changed(old(table), log, c) - {""}, SAMPLE))
      ensures !rep.skipped && dryRun ==>
        table == old(table) && rep.changed == Min(|Changed(old(table), log, c) - {""}|, CAP)
      ensures !rep.skipped && !dryRun ==>
        && rep.changed == Min(|Changed(old(table), log, c)|, CAP)
        && table == Repaired(old(table), log, c, Elems(First(Changed(old(table), log, c), CAP)))
    {
      if forall r | r in log :: r.at < c.windowStart || r.query == "" {
        return Report(dryRun, true, 0, []);
      }
      if dryRun {
        rep := DryRun(table, log, c);
        return;
      }
      AboveEmpty(Changed(table, log, c));
      var sample := Preview(table, log, c, "", SAMPLE);
      var changed := ApplyLoop(log, c);
      rep := Report(false, false, changed, sample);
    }
  }

  /** One batch on a table repaired so far repairs the next slice of the original changed rows. */
  lemma NextBatch(was: Table, log: Log, c: Settings, all: seq<string>, done: nat, t: Table)
    requires all == Enumerate(Changed(was, log, c)) && done <= |all|
    requires t == Repaired(was, log, c, Elems(all[..done]))
    ensures |Changed(t, log, c)| == |all| - done
    ensures Repaired(t, log, c, Elems(First(Changed(t, log, c), BATCH)))
         == Repaired(was, log, c, Elems(all[..done + Min(BATCH, |all| - done)]))
  {
    hide Changed, Repaired, Less, Ascending, Elems, First, Enumerate;
    RepairSettles(was, log, c, Elems(all[..done]));
    EnumerateRest(Changed(was, log, c), done);
    FirstIs(Changed(t, log, c), BATCH);
    SliceOfRest(all, all[done..], done, BATCH);
    var n := Min(BATCH, |all| - done);
    NextSlice(all, done, n);
    RepairTwice(was, log, c, Elems(all[..done]), Elems(all[done..done + n]));
  }

  lemma NextSlice(all: seq<string>, done: nat, n: nat)
    requires Ascending(all) && done + n <= |all|
    ensures Elems(all[..done + n]) == Elems(all[..done]) + Elems(all[done..done + n])
    ensures Elems(all[..done]) !! Elems(all[done..done + n])
  {
    SplitAscending(all, done);
    assert all[..done + n] == all[..done] + all[done..done + n];
    forall x | x in all[done..done + n] ensures x in Elems(all[done..]) {
      assert all[done..done + n] == all[done..][..n];
    }
  }

  lemma NothingRepaired(t: Table, log: Log, c: Settings, all: seq<string>)
    ensures Repaired(t, log, c, Elems(all[..0])) == t
  {
  }

  /** A pass that stays under the cap leaves nothing to change. */
  lemma UnderCapConverges(t: Table, log: Log, c: Settings)
    requires |Changed(t, log, c)| <= CAP
    ensures Changed(Repaired(t, log, c, Elems(First(Changed(t, log, c), CAP))), log, c) == {}
  {
    var all := Changed(t, log, c);
    assert First(all, CAP) == Enumerate(all);
    RepairSettles(t, log, c, Elems(First(all, CAP)));
  }

  /** The dry run reports what the apply loop will report exactly when the empty key is not a changed
      row, or the changed rows exceed the cap anyway. */
  lemma DryRunAgrees(changed: set<string>)
    ensures Min(|changed - {""}|, CAP) == Min(|changed|, CAP) <==> "" !in changed || |changed| > CAP
  {
    if "" in changed {
      assert |changed - {""}| == |changed| - 1;
    } else {
      assert changed - {""} == changed;
    }
  }

  // ----- the rollup -----

  /** The queries with new rows. */
  function Batch(log: Log, fromId: int, maxId: int): set<string> {
    set r | r in log && fromId < r.id <= maxId && r.query != "" :: r.query
  }

  /** The rows a rollup recounts for a query of its batch. */
  function Recount(log: Log, c: Settings, k: string): Log {
    set r | r in log && r.query == k && r.at >= c.windowStart
  }

  /** The row a rollup writes: a new one starts unbanned, an existing one carries its ban. */
  function RolledRow(live: Option<Aggregate>, rows: Log, c: Settings, display: string): Aggregate {
    var banned := live.Some? && live.value.banned;
    Aggregate(display, Users(rows), |rows|, c.measure(rows), Users(rows) >= c.minUsers && !banned, banned)
  }

  /** Refreshes the batch's queries that still have rows in the window. */
  function RolledUp(t: Table, log: Log, c: Settings, fromId: int, maxId: int): Table {
    t + RolledRows(t, log, c, fromId, maxId)
  }

  /** The rows a rollup writes. */
  function RolledRows(t: Table, log: Log, c: Settings, fromId: int, maxId: int): Table {
    map k | k in Batch(log, fromId, maxId) && Recount(log, c, k) != {} ::
      RolledRow(if k in t then Some(t[k]) else None, Recount(log, c, k), c, c.latest(set r | r in log && r.query == k))
  }

  /** The two writers count one way: for a query with rows in the window the rollup's recount is the
      re-evaluation's, and the row it writes is the re-evaluated one under its newest display form. */
  lemma OneRecount(live: Option<Aggregate>, log: Log, c: Settings, k: string, display: string)
    requires k != "" && Recount(log, c, k) != {}
    ensures Recount(log, c, k) == Survivors(log, c, k)
    ensures var row := RolledRow(live, Recount(log, c, k), c, display);
            && !Moves(row, Survivors(log, c, k), c) && Recounted(row, Survivors(log, c, k), c) == row
            && (live.Some? ==> row == Recounted(live.value, Survivors(log, c, k), c).(display := display))
  {
    assert Recount(log, c, k) == Survivors(log, c, k);
    hide Users;
  }

  /** Right after a rollup the re-evaluation would move none of its rows, nor alter one if it did. */
  lemma RollupSettles(t: Table, log: Log, c: Settings, fromId: int, maxId: int, k: string)
    requires k in Batch(log, fromId, maxId) && Recount(log, c, k) != {}
    ensures var u := RolledUp(t, log, c, fromId, maxId);
            && k in u && k !in Changed(u, log, c)
            && Recounted(u[k], Survivors(log, c, k), c) == u[k]
            && (k in t ==> u[k] == Recounted(t[k], Survivors(log, c, k), c).(display := u[k].display))
  {
    OneRecount(if k in t then Some(t[k]) else None, log, c, k, c.latest(set r | r in log && r.query == k));
    hide Survivors, Users, Recounted, RolledRow, Moves;
  }

  /** On a settled table no rollup over the same rows moves a flag or a count. */
  lemma SettledSurvivesRollup(t: Table, log: Log, c: Settings, fromId: int, maxId: int, k: string)
    requires k in t && k !in Changed(t, log, c)
    ensures var u := RolledUp(t, log, c, fromId, maxId);
            && k in u && u[k].suggestible == t[k].suggestible && u[k].banned == t[k].banned
            && u[k].users == t[k].users && u[k].total == t[k].total
  {
    if k in Batch(log, fromId, maxId) && Recount(log, c, k) != {} {
      OneRecount(Some(t[k]), log, c, k, c.latest(set r | r in log && r.query == k));
    }
    hide Survivors, Batch, Users, Recount;
  }
}
