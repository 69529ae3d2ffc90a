/** Trending scores: lazy decay on each bump, eager decay with pruning on each sweep, against the exact
    sum of decayed unit bumps. Clocks are whole seconds; decay over n seconds is q^n, where q is 2^(-1/half-life)
    for a positive half-life and 1 otherwise. */
module Trending {
  import opened Sorting
  import opened TextOrder

  // ----- decay -----

  function Pow(q: real, n: nat): real {
    if n == 0 then 1.0 else q * Pow(q, n - 1)
  }

  /** The scripts' factor: no decay over a non-positive interval. */
  function Factor(q: real, elapsed: int): real {
    if elapsed > 0 then Pow(q, elapsed) else 1.0
  }

  lemma {:induction false} PowAdds(q: real, a: nat, b: nat)
    ensures Pow(q, a + b) == Pow(q, a) * Pow(q, b)
  {
    if a > 0 {
      PowAdds(q, a - 1, b);
      assert Pow(q, a + b) == q * Pow(q, a - 1 + b);
    }
  }

  lemma {:induction false} PowRange(q: real, n: nat)
    requires 0.0 < q <= 1.0
    ensures 0.0 < Pow(q, n) <= 1.0
  {
    if n > 0 {
      PowRange(q, n - 1);
      Shrinks(Pow(q, n - 1), q);
    }
  }

  lemma Shrinks(x: real, f: real)
    requires 0.0 < f <= 1.0 && x >= 0.0
    ensures 0.0 <= f * x <= x && (x > 0.0 ==> f * x > 0.0)
  {
    assert (1.0 - f) * x >= 0.0;
  }

  lemma Absent(f: real)
    ensures 0.0 * f == 0.0
  {
  }

  lemma Distribute(x: real, y: real, f: real)
    ensures (x + y) * f == x * f + y * f && (x - y) * f == x * f - y * f
  {
  }

  lemma Associate(x: real, y: real, f: real)
    ensures x * y * f == x * (y * f)
  {
  }

  /** A score after decaying for some seconds. */
  function Faded(x: real, q: real, elapsed: nat): real {
    x * Pow(q, elapsed)
  }

  lemma FadedRange(x: real, q: real, n: nat)
    requires 0.0 < q <= 1.0 && x >= 0.0
    ensures Faded(x, q, n) <= x && (n == 0 ==> Faded(x, q, n) == x)
  {
    PowRange(q, n);
    Shrinks(x, Pow(q, n));
  }

  lemma FadedAdds(x: real, q: real, a: nat, b: nat)
    ensures Faded(x, q, a + b) == Faded(Faded(x, q, a), q, b)
  {
    PowAdds(q, a, b);
    hide Pow;
    Associate(x, Pow(q, a), Pow(q, b));
  }

  lemma FadedOrder(x: real, y: real, q: real, n: nat)
    requires 0.0 < q <= 1.0
    ensures (Faded(x, q, n) > Faded(y, q, n) <==> x > y) && (Faded(x, q, n) < Faded(y, q, n) <==> x < y)
  {
    PowRange(q, n);
    hide Pow;
    CompareScaled(x, y, Pow(q, n));
  }

  lemma FadedSum(x: real, y: real, q: real, n: nat)
    ensures Faded(x + y, q, n) == Faded(x, q, n) + Faded(y, q, n) && Faded(0.0, q, n) == 0.0
  {
    hide Pow;
    Distribute(x, y, Pow(q, n));
    Absent(Pow(q, n));
  }

  // ----- the sorted set and its timestamps -----

  /** A domain's score set and last-update hash. */
  datatype Trend = Trend(scores: map<string, real>, at: map<string, int>)

  /** Half-life and pruning floor, fixed over a run. */
  datatype Rates = Rates(q: real, floor: real)

  predicate ValidRates(r: Rates) {
    0.0 < r.q <= 1.0 && 0.0 < r.floor < 1.0
  }

  /** A member's stored score decayed to now; an absent member scores 0, an unstamped one does not decay. */
  function Score(t: Trend, q: real, m: string, now: int): real {
    if m in t.scores then t.scores[m] * Factor(q, if m in t.at then now - t.at[m] else 0) else 0.0
  }

  function Bumped(t: Trend, q: real, m: string, now: int): Trend {
    Trend(t.scores[m := Score(t, q, m, now) + 1.0], t.at[m := now])
  }

  predicate Pruned(t: Trend, r: Rates, m: string, now: int) {
    m in t.scores && Score(t, r.q, m, now) < r.floor
  }

  function Swept(t: Trend, r: Rates, now: int): Trend {
    Trend(map m | m in t.scores && !Pruned(t, r, m, now) :: Score(t, r.q, m, now),
          map m | m in t.at.Keys + t.scores.Keys && !Pruned(t, r, m, now) :: if m in t.scores then now else t.at[m])
  }

  class TrendSet {
    var scores: map<string, real>
    var at: map<string, int>

    function View(): Trend
      reads this
    {
      Trend(scores, at)
    }

    constructor ()
      ensures View() == Trend(map[], map[])
    {
      scores, at := map[], map[];
    }

    method Bump(q: real, m: string, now: int) returns (newv: real)
      modifies this
      ensures View() == Bumped(old(View()), q, m, now)
      ensures newv == Score(View(), q, m, now)
    {
      var cur := if m in scores then scores[m] else 0.0;
      var last := if m in at then at[m] else now;
      var elapsed := now - last;
      var factor := 1.0;
      if elapsed > 0 {
        factor := Pow(q, elapsed);
      }
      newv := cur * factor + 1.0;
      Absent(factor);
      assert newv == Score(View(), q, m, now) + 1.0;
      scores := scores[m := newv];
      at := at[m := now];
    }

    method Sweep(r: Rates, now: int) returns (survivors: nat)
      modifies this
      ensures View() == Swept(old(View()), r, now)
      ensures survivors == |scores|
    {
      hide Score, Pow, Factor;
      ghost var was := View();
      var members := scores;
      var todo := members.Keys;
      while todo != {}
        invariant todo <= members.Keys && members == was.scores
        invariant forall m :: m in todo || m !in members ==> Untouched(View(), was, m)
        invariant forall m :: m in members && m !in todo ==> Decayed(View(), was, r, m, now)
        decreases |todo|
      {
        var m :| m in todo;
        assert Untouched(View(), was, m);
        var s := members[m];
        var last := if m in at then at[m] else now;
        var elapsed := now - last;
        var factor := 1.0;
        if elapsed > 0 {
          factor := Pow(r.q, elapsed);
        }
        var decayed := s * factor;
        ghost var before := View();
        DecayedIsScore(before, was, r.q, m, now, factor, decayed);
        hide Untouched, Decayed;
        if decayed < r.floor {
          scores := scores - {m};
          at := at - {m};
        } else {
          scores := scores[m := decayed];
          at := at[m := now];
        }
        SweptMember(before, View(), was, r, m, now);
        todo := todo - {m};
      }
      SweptExactly(View(), was, r, now);
      survivors := |scores|;
    }

    /** The first k members by stored score. */
    method TrendTop(k: int) returns (top: seq<Entry>)
      ensures IsTop(scores, k, top)
    {
      if k <= 0 {
        return [];
      }
      var all: seq<Entry> := [];
      var todo := scores.Keys;
      while todo != {}
        invariant todo <= scores.Keys && |all| + |todo| == |scores|
        invariant forall i :: 0 <= i < |all| ==> all[i].item in scores && scores[all[i].item] == all[i].score
        invariant forall m :: m in scores && m !in todo ==> Entry(m, scores[m]) in all
        decreases |todo|
      {
        var m :| m in todo;
        all := all + [Entry(m, scores[m])];
        todo := todo - {m};
      }
      SortedPrefixIsTop(scores, all, k);
      top := SortBy(Higher, all);
      top := top[..if |top| < k then |top| else k];
    }
  }

  predicate Untouched(t: Trend, was: Trend, m: string) {
    && (m in t.scores <==> m in was.scores) && (m in t.scores ==> t.scores[m] == was.scores[m])
    && (m in t.at <==> m in was.at) && (m in t.at ==> t.at[m] == was.at[m])
  }

  predicate Decayed(t: Trend, was: Trend, r: Rates, m: string, now: int) {
    if Pruned(was, r, m, now) then m !in t.scores && m !in t.at
    else m in t.scores && t.scores[m] == Score(was, r.q, m, now) && m in t.at && t.at[m] == now
  }

  lemma DecayedIsScore(t: Trend, was: Trend, q: real, m: string, now: int, factor: real, decayed: real)
    requires m in was.scores && Untouched(t, was, m)
    requires factor == if now - (if m in t.at then t.at[m] else now) > 0 then Pow(q, now - (if m in t.at then t.at[m] else now)) else 1.0
    requires decayed == was.scores[m] * factor
    ensures decayed == Score(was, q, m, now)
  {
    hide Pow;
  }

  lemma SweptMember(t: Trend, u: Trend, was: Trend, r: Rates, m: string, now: int)
    requires m in was.scores && Untouched(t, was, m)
    requires u == if Pruned(was, r, m, now) then Trend(t.scores - {m}, t.at - {m})
                  else Trend(t.scores[m := Score(was, r.q, m, now)], t.at[m := now])
    ensures Decayed(u, was, r, m, now)
    ensures forall k :: k != m && Untouched(t, was, k) ==> Untouched(u, was, k)
    ensures forall k :: k != m && Decayed(t, was, r, k, now) ==> Decayed(u, was, r, k, now)
  {
    hide Score, Pruned;
  }

  lemma SweptExactly(t: Trend, was: Trend, r: Rates, now: int)
    requires forall m :: m in was.scores ==> Decayed(t, was, r, m, now)
    requires forall m :: m !in was.scores ==> Untouched(t, was, m)
    ensures t == Swept(was, r, now)
  {
    hide Score;
    var u := Swept(was, r, now);
    forall m ensures m in t.scores <==> m in u.scores { assert Untouched(t, was, m) || m in was.scores; }
    forall m ensures m in t.at <==> m in u.at { assert Untouched(t, was, m) || m in was.scores; }
    assert t.scores == u.scores;
    assert t.at == u.at;
  }

  // ----- runs -----

  datatype Op = BumpAt(item: string, time: int) | SweepAt(time: int)

  function Apply(t: Trend, r: Rates, op: Op): Trend {
    match op
    case BumpAt(m, now) => Bumped(t, r.q, m, now)
    case SweepAt(now) => Swept(t, r, now)
  }

  function Run(r: Rates, ops: seq<Op>): Trend {
    if ops == [] then Trend(map[], map[]) else Apply(Run(r, ops[..|ops| - 1]), r, ops[|ops| - 1])
  }

  predicate Monotone(ops: seq<Op>, now: int) {
    ops == [] || (ops[|ops| - 1].time <= now && Monotone(ops[..|ops| - 1], ops[|ops| - 1].time))
  }

  /** Reference: every bump of the item, decayed from its own time to now. */
  function Exact(q: real, ops: seq<Op>, m: string, now: int): real
    requires Monotone(ops, now)
  {
    if ops == [] then 0.0
    else
      var op, init := ops[|ops| - 1], ops[..|ops| - 1];
      Later(init, op.time, now);
      Exact(q, init, m, now) + (if op.BumpAt? && op.item == m then Pow(q, now - op.time) else 0.0)
  }

  lemma Later(ops: seq<Op>, now: int, later: int)
    requires Monotone(ops, now) && now <= later
    ensures Monotone(ops, later)
  {
  }

  /** The last bump's contribution, if it is the item's. */
  function LastShare(q: real, op: Op, m: string, now: int): real
    requires op.time <= now
  {
    if op.BumpAt? && op.item == m then Pow(q, now - op.time) else 0.0
  }

  lemma ExactLast(q: real, ops: seq<Op>, m: string, now: int)
    requires ops != [] && Monotone(ops, now)
    ensures var op, init := ops[|ops| - 1], ops[..|ops| - 1];
            && op.time <= now && Monotone(init, op.time) && Monotone(init, now)
            && Exact(q, ops, m, now) == Exact(q, init, m, now) + LastShare(q, op, m, now)
  {
    Later(ops[..|ops| - 1], ops[|ops| - 1].time, now);
  }

  lemma ShareDecays(q: real, op: Op, m: string, now: int, later: int)
    requires op.time <= now <= later
    ensures LastShare(q, op, m, later) == Faded(LastShare(q, op, m, now), q, later - now)
  {
    PowAdds(q, now - op.time, later - now);
    FadedSum(0.0, 0.0, q, later - now);
  }

  lemma {:induction false} ExactDecays(q: real, ops: seq<Op>, m: string, now: int, later: int)
    requires Monotone(ops, now) && now <= later
    ensures Monotone(ops, later) && Exact(q, ops, m, later) == Faded(Exact(q, ops, m, now), q, later - now)
  {
    Later(ops, now, later);
    if ops == [] {
      FadedSum(0.0, 0.0, q, later - now);
    } else {
      ExactLast(q, ops, m, now);
      ExactLast(q, ops, m, later);
      var op, init := ops[|ops| - 1], ops[..|ops| - 1];
      ExactDecays(q, init, m, now, later);
      ShareDecays(q, op, m, now, later);
      hide Exact, Faded, LastShare, Monotone;
      FadedSum(Exact(q, init, m, now), LastShare(q, op, m, now), q, later - now);
    }
  }

  /** What pruning can lose in total: floor / (1 - floor). */
  function Slack(r: Rates): real
    requires ValidRates(r)
  {
    r.floor / (1.0 - r.floor)
  }

  lemma SlackAbsorbsFloor(r: Rates)
    requires ValidRates(r)
    ensures Slack(r) > 0.0 && (Slack(r) + 1.0) * r.floor == Slack(r)
  {
    assert r.floor / (1.0 - r.floor) * (1.0 - r.floor) == r.floor;
  }

  /** A score short of the exact sum by less than b, and by no more than b times itself while present. */
  predicate Within(exact: real, s: real, b: real, present: bool) {
    0.0 <= exact - s < b && (present ==> exact - s <= b * s)
  }

  /** A member stamped not after now, its score within the slack. */
  predicate Close(t: Trend, r: Rates, exact: real, m: string, now: int)
    requires ValidRates(r)
  {
    && Within(exact, Score(t, r.q, m, now), Slack(r), m in t.scores)
    && (m in t.scores ==> m in t.at && t.at[m] <= now)
  }

  /** Decay scales the stored score and the exact sum alike. */
  lemma CloseLater(t: Trend, r: Rates, exact: real, m: string, now: int, later: int)
    requires ValidRates(r) && Close(t, r, exact, m, now) && now <= later
    ensures Close(t, r, Faded(exact, r.q, later - now), m, later)
  {
    hide Within, Pow, Score, Slack, Faded;
    ScoreDecays(t, r.q, m, now, later);
    WithinFaded(exact, Score(t, r.q, m, now), Slack(r), m in t.scores, r.q, later - now);
  }

  lemma WithinFaded(exact: real, s: real, b: real, present: bool, q: real, n: nat)
    requires Within(exact, s, b, present) && 0.0 < q <= 1.0
    ensures Within(Faded(exact, q, n), Faded(s, q, n), b, present)
  {
    PowRange(q, n);
    hide Pow;
    Distribute(exact, s, Pow(q, n));
    ScaledShortfall(exact - s, s, b, Pow(q, n));
  }

  lemma ScaledShortfall(short: real, s: real, b: real, f: real)
    requires 0.0 <= short < b && 0.0 < f <= 1.0
    ensures 0.0 <= short * f < b
    ensures short <= b * s ==> short * f <= b * (s * f)
  {
    Shrinks(short, f);
    if short <= b * s {
      ScaleBound(short, b * s, f);
      Associate(b, s, f);
    }
  }

  lemma ScoreDecays(t: Trend, q: real, m: string, now: int, later: int)
    requires m in t.scores ==> m in t.at && t.at[m] <= now
    requires now <= later
    ensures Score(t, q, m, later) == Faded(Score(t, q, m, now), q, later - now)
  {
    if m in t.scores {
      DecayedScore(t, q, m, now);
      DecayedScore(t, q, m, later);
      FadedAdds(t.scores[m], q, now - t.at[m], later - now);
    } else {
      FadedSum(0.0, 0.0, q, later - now);
    }
  }

  lemma ScaleBound(x: real, y: real, f: real)
    requires x <= y && 0.0 < f
    ensures x * f <= y * f && (x < y ==> x * f < y * f)
  {
    assert f * (y - x) >= 0.0;
  }

  lemma WithinBumped(exact: real, s: real, b: real, present: bool)
    requires Within(exact, s, b, present) && b > 0.0 && (present || s == 0.0)
    ensures Within(exact + 1.0, s + 1.0, b, true)
  {
    Distribute(s, 1.0, b);
  }

  lemma BumpedScore(t: Trend, q: real, item: string, m: string, now: int)
    ensures Score(Bumped(t, q, item, now), q, m, now) == Score(t, q, m, now) + if m == item then 1.0 else 0.0
  {
  }

  /** A pruned member loses less than floor, and what it had lost before is at most slack * floor. */
  lemma WithinPruned(exact: real, s: real, b: real, floor: real)
    requires Within(exact, s, b, true) && s < floor && b > 0.0 && (b + 1.0) * floor == b
    ensures Within(exact, 0.0, b, false)
  {
    NonNegative(b, s);
    ScaleBound(s, floor, b + 1.0);
    Distribute(b, 1.0, s);
  }

  lemma NonNegative(b: real, s: real)
    requires b > 0.0 && b * s >= 0.0
    ensures s >= 0.0
  {
  }

  /** After any interleaving of bumps and sweeps under a monotone clock, a member's stored score decayed
      to now never exceeds the exact decayed sum, and falls short of it by less than floor / (1 - floor). */
  lemma {:induction false} StoredIsExactWithinSlack(r: Rates, ops: seq<Op>, m: string, now: int)
    requires ValidRates(r) && Monotone(ops, now)
    ensures Close(Run(r, ops), r, Exact(r.q, ops, m, now), m, now)
    ensures Exact(r.q, ops, m, now) - r.floor / (1.0 - r.floor) < Score(Run(r, ops), r.q, m, now) <= Exact(r.q, ops, m, now)
  {
    hide Close, Score, Pow, Apply, Slack, Faded;
    if ops == [] {
      EmptyClose(r, m, now);
      assert Close(Run(r, ops), r, 0.0, m, now);
    } else {
      var op, init := ops[|ops| - 1], ops[..|ops| - 1];
      StoredIsExactWithinSlack(r, init, m, op.time);
      ApplyClose(Run(r, init), r, Exact(r.q, init, m, op.time), op, m);
      ExactAtLast(r.q, ops, m);
      ExactDecays(r.q, ops, m, op.time, now);
      CloseLater(Run(r, ops), r, Exact(r.q, ops, m, op.time), m, op.time, now);
    }
    CloseBounds(Run(r, ops), r, Exact(r.q, ops, m, now), m, now);
  }

  lemma EmptyClose(r: Rates, m: string, now: int)
    requires ValidRates(r)
    ensures Close(Trend(map[], map[]), r, 0.0, m, now)
  {
    SlackAbsorbsFloor(r);
  }

  lemma ExactAtLast(q: real, ops: seq<Op>, m: string)
    requires ops != [] && Monotone(ops, ops[|ops| - 1].time)
    ensures var op, init := ops[|ops| - 1], ops[..|ops| - 1];
            Exact(q, ops, m, op.time) == Exact(q, init, m, op.time) + if op.BumpAt? && op.item == m then 1.0 else 0.0
  {
    assert Pow(q, 0) == 1.0;
  }

  lemma CloseBounds(t: Trend, r: Rates, exact: real, m: string, now: int)
    requires ValidRates(r) && Close(t, r, exact, m, now)
    ensures exact - r.floor / (1.0 - r.floor) < Score(t, r.q, m, now) <= exact
  {
    hide Score;
  }

  lemma ApplyClose(t: Trend, r: Rates, exact: real, op: Op, m: string)
    requires ValidRates(r) && Close(t, r, exact, m, op.time)
    ensures Close(Apply(t, r, op), r, exact + if op.BumpAt? && op.item == m then 1.0 else 0.0, m, op.time)
  {
    var s := Score(t, r.q, m, op.time);
    SlackAbsorbsFloor(r);
    match op {
      case BumpAt(item, time) =>
        BumpedScore(t, r.q, item, m, time);
        WithinBumped(exact, s, Slack(r), m in t.scores);
      case SweepAt(time) =>
        SweptScore(t, r, m, time);
        if Pruned(t, r, m, time) {
          WithinPruned(exact, s, Slack(r), r.floor);
        }
    }
    hide Within, Slack, Score;
  }

  lemma SweptScore(t: Trend, r: Rates, m: string, now: int)
    ensures Score(Swept(t, r, now), r.q, m, now) == if Pruned(t, r, m, now) then 0.0 else Score(t, r.q, m, now)
  {
  }

  /** An item ahead by the slack or more in exact terms is ahead once both stored scores are decayed to now. */
  lemma ClearLeadsSurvive(r: Rates, ops: seq<Op>, a: string, b: string, now: int)
    requires ValidRates(r) && Monotone(ops, now)
    requires Exact(r.q, ops, a, now) >= Exact(r.q, ops, b, now) + r.floor / (1.0 - r.floor)
    ensures Score(Run(r, ops), r.q, a, now) > Score(Run(r, ops), r.q, b, now)
    ensures a in Run(r, ops).scores
  {
    StoredIsExactWithinSlack(r, ops, a, now);
    StoredIsExactWithinSlack(r, ops, b, now);
    ScoresNotNegative(r, ops, b, now);
  }

  /** A reachable trend holds non-negative scores, stamped not after now. */
  lemma ScoresNotNegative(r: Rates, ops: seq<Op>, m: string, now: int)
    requires ValidRates(r) && Monotone(ops, now)
    ensures var t := Run(r, ops);
            && Score(t, r.q, m, now) >= 0.0
            && (m in t.scores ==> t.scores[m] >= 0.0 && m in t.at && t.at[m] <= now)
  {
    var t := Run(r, ops);
    StoredIsExactWithinSlack(r, ops, m, now);
    if m in t.scores {
      SlackAbsorbsFloor(r);
      var s := Score(t, r.q, m, now);
      assert Close(t, r, Exact(r.q, ops, m, now), m, now);
      NonNegative(Slack(r), s) by { hide Score, Slack; }
      PowRange(r.q, now - t.at[m]);
      NonNegative(Pow(r.q, now - t.at[m]), t.scores[m]) by { assert Pow(r.q, 0) == 1.0; }
    }
  }

  // ----- the served ranking -----

  /** A member as ZREVRANGE lists it. */
  datatype Entry = Entry(item: string, score: real)

  function ItemOf(e: Entry): string {
    e.item
  }

  /** Higher stored score first, equal scores by descending member. */
  predicate Higher(a: Entry, b: Entry) {
    a.score > b.score || (a.score == b.score && Less(b.item, a.item))
  }

  /** top is the first k members by stored score: in order, and behind no member it leaves out. */
  ghost predicate IsTop(scores: map<string, real>, k: int, top: seq<Entry>) {
    && |top| == (if k <= 0 then 0 else if |scores| < k then |scores| else k)
    && (forall i :: 0 <= i < |top| ==> top[i].item in scores && scores[top[i].item] == top[i].score)
    && (forall i, j :: 0 <= i < j < |top| ==> Higher(top[i], top[j]))
    && (forall i, m :: 0 <= i < |top| && m in scores && Higher(Entry(m, scores[m]), top[i]) ==> Entry(m, scores[m]) in top[..i])
  }

  lemma HigherIsWeak()
    ensures StrictWeak(Higher)
  {
    forall a, b | Higher(a, b) ensures !Higher(b, a) { LessTrichotomy(a.item, b.item); }
    forall a, b, c | Higher(a, b) && !Higher(c, b) ensures Higher(a, c) { HigherChains(a, b, c); }
  }

  lemma HigherChains(a: Entry, b: Entry, c: Entry)
    requires Higher(a, b) && !Higher(c, b)
    ensures Higher(a, c)
  {
    hide Less;
    LessTrichotomy(b.item, c.item);
    if a.score == b.score == c.score && b.item != c.item {
      LessTransitive(c.item, b.item, a.item);
    }
  }

  /** Lists every member once, in any order. */
  ghost predicate Lists(scores: map<string, real>, all: seq<Entry>) {
    && |all| == |scores|
    && (forall i :: 0 <= i < |all| ==> all[i].item in scores && scores[all[i].item] == all[i].score)
    && forall m :: m in scores ==> Entry(m, scores[m]) in all
  }

  lemma SortedPrefixIsTop(scores: map<string, real>, all: seq<Entry>, k: int)
    requires Lists(scores, all)
    ensures var n := if k <= 0 then 0 else if |scores| < k then |scores| else k;
            |SortBy(Higher, all)| == |all| && IsTop(scores, k, SortBy(Higher, all)[..n])
  {
    HigherIsWeak();
    SortFacts(Higher, all);
    SortedListing(scores, all, SortBy(Higher, all));
    hide Higher, SortBy, Sorted;
    var n := if k <= 0 then 0 else if |scores| < k then |scores| else k;
    PrefixIsTop(scores, SortBy(Higher, all), n);
  }

  lemma SortedListing(scores: map<string, real>, all: seq<Entry>, sorted: seq<Entry>)
    requires Lists(scores, all) && |sorted| == |all| && forall e :: e in sorted <==> e in all
    ensures Lists(scores, sorted)
  {
    forall i | 0 <= i < |sorted| ensures sorted[i].item in scores && scores[sorted[i].item] == sorted[i].score {
      ListedEntry(scores, all, sorted[i]);
    }
  }

  lemma PrefixIsTop(scores: map<string, real>, sorted: seq<Entry>, n: nat)
    requires Lists(scores, sorted) && Sorted(Higher, sorted) && n <= |sorted|
    ensures forall i :: 0 <= i < n ==> sorted[..n][i].item in scores && scores[sorted[..n][i].item] == sorted[..n][i].score
    ensures forall i, j :: 0 <= i < j < n ==> Higher(sorted[..n][i], sorted[..n][j])
    ensures forall i, m :: 0 <= i < n && m in scores && Higher(Entry(m, scores[m]), sorted[..n][i]) ==> Entry(m, scores[m]) in sorted[..n][..i]
  {
    ListedOnce(scores, sorted);
    hide Sorted, Higher, Lists;
    forall i, j | 0 <= i < j < n ensures Higher(sorted[..n][i], sorted[..n][j]) {
      SortedAt(Higher, sorted, i, j);
      assert Map(ItemOf, sorted)[i] != Map(ItemOf, sorted)[j];
      HigherTotal(sorted[i], sorted[j]);
    }
    forall i, m | 0 <= i < n && m in scores && Higher(Entry(m, scores[m]), sorted[..n][i])
      ensures Entry(m, scores[m]) in sorted[..n][..i]
    {
      HigherIsEarlier(sorted, i, Entry(m, scores[m]));
      assert sorted[..n][..i] == sorted[..i];
    }
  }

  lemma ListedOnce(scores: map<string, real>, all: seq<Entry>)
    requires Lists(scores, all)
    ensures NoDup(Map(ItemOf, all))
  {
    var items := Map(ItemOf, all);
    forall m | m in scores ensures m in items {
      var i :| 0 <= i < |all| && all[i] == Entry(m, scores[m]);
      assert items[i] == m;
    }
    assert Elems(items) == scores.Keys && |scores| == |scores.Keys|;
    FullElemsDistinct(items);
  }

  lemma ListedEntry(scores: map<string, real>, all: seq<Entry>, e: Entry)
    requires Lists(scores, all) && e in all
    ensures e.item in scores && scores[e.item] == e.score
  {
  }

  lemma HigherIsEarlier(sorted: seq<Entry>, i: nat, e: Entry)
    requires Sorted(Higher, sorted) && i < |sorted| && e in sorted && Higher(e, sorted[i])
    ensures e in sorted[..i]
  {
    hide Sorted;
    var j :| 0 <= j < |sorted| && sorted[j] == e;
    if i < j {
      SortedAt(Higher, sorted, i, j);
    }
    HigherIsWeak();
    assert j < i;
    assert sorted[..i][j] == e;
  }

  /** Right after a sweep every stored score is the score decayed to now. */
  lemma SweepMakesStoredCurrent(t: Trend, r: Rates, now: int)
    ensures var u := Swept(t, r, now);
            forall m :: m in u.scores ==> m in u.at && u.at[m] == now && u.scores[m] == Score(u, r.q, m, now)
  {
  }

  /** The list the worker takes right after a sweep ranks every clear lead correctly: where b is listed, an
      item exactly ahead of it by the slack is listed before it. */
  lemma SweptTopRanksLeads(r: Rates, ops: seq<Op>, a: string, b: string, now: int, k: int, top: seq<Entry>, j: nat)
    requires ValidRates(r) && Monotone(ops, now)
    requires Exact(r.q, ops, a, now) >= Exact(r.q, ops, b, now) + r.floor / (1.0 - r.floor)
    requires IsTop(Run(r, ops + [SweepAt(now)]).scores, k, top) && j < |top| && top[j].item == b
    ensures exists i :: 0 <= i < j && top[i].item == a
  {
    var swept := ops + [SweepAt(now)];
    assert swept[..|swept| - 1] == ops;
    ClearLeadsSurvive(r, swept, a, b, now) by { SweepAddsNothing(r, ops, a, b, now); }
    SweepMakesStoredCurrent(Run(r, ops), r, now);
    hide Score, Exact;
    var scores := Run(r, swept).scores;
    assert Higher(Entry(a, scores[a]), top[j]);
    var i :| 0 <= i < |top[..j]| && top[..j][i] == Entry(a, scores[a]);
    assert top[i].item == a;
  }

  lemma SweepAddsNothing(r: Rates, ops: seq<Op>, a: string, b: string, now: int)
    requires Monotone(ops, now)
    ensures var swept := ops + [SweepAt(now)];
            && Monotone(swept, now)
            && Exact(r.q, swept, a, now) == Exact(r.q, ops, a, now) && Exact(r.q, swept, b, now) == Exact(r.q, ops, b, now)
  {
    var swept := ops + [SweepAt(now)];
    assert swept[..|swept| - 1] == ops;
  }

  lemma DecayedScore(t: Trend, q: real, m: string, now: int)
    requires m in t.scores && m in t.at && t.at[m] <= now
    ensures Score(t, q, m, now) == Faded(t.scores[m], q, now - t.at[m])
  {
    assert Pow(q, 0) == 1.0;
  }

  /** Two scores compare at any later instant as at the later of their stamps. */
  lemma EarlierDecays(x: real, tx: int, y: real, ty: int, q: real, now: int)
    requires 0.0 < q <= 1.0 && x >= 0.0 && tx <= ty <= now
    ensures Faded(x, q, ty - tx) <= x && (tx == ty ==> Faded(x, q, ty - tx) == x)
    ensures Faded(x, q, now - tx) > Faded(y, q, now - ty) <==> Faded(x, q, ty - tx) > y
    ensures Faded(x, q, now - tx) < Faded(y, q, now - ty) <==> Faded(x, q, ty - tx) < y
  {
    hide Faded;
    FadedRange(x, q, ty - tx);
    FadedAdds(x, q, ty - tx, now - ty);
    FadedOrder(Faded(x, q, ty - tx), y, q, now - ty);
  }

  lemma CompareScaled(x: real, y: real, f: real)
    requires f > 0.0
    ensures (x * f > y * f <==> x > y) && (x * f < y * f <==> x < y)
  {
    if x > y {
      ScaleBound(y, x, f);
    } else if x < y {
      ScaleBound(x, y, f);
    }
  }

  // ----- the list read raw -----

  /** Every stored score decayed to now. */
  function Current(t: Trend, q: real, now: int): map<string, real> {
    map m | m in t.scores :: Score(t, q, m, now)
  }

  predicate Stands(t: Trend, m: string) {
    m in t.scores && m in t.at
  }

  /** The stored scores put a before b, the scores decayed to the later of their two stamps b before a. */
  predicate Misplaced(t: Trend, q: real, a: string, b: string) {
    && Stands(t, a) && Stands(t, b)
    && Higher(Entry(a, t.scores[a]), Entry(b, t.scores[b]))
    && var when := if t.at[a] < t.at[b] then t.at[b] else t.at[a];
       Higher(Entry(b, Faded(t.scores[b], q, when - t.at[b])), Entry(a, Faded(t.scores[a], q, when - t.at[a])))
  }

  /** Every top list of x names the members of y's, in the same order. */
  ghost predicate SameTops(x: map<string, real>, y: map<string, real>) {
    forall k, top, right :: IsTop(x, k, top) && IsTop(y, k, right) ==> Map(ItemOf, top) == Map(ItemOf, right)
  }

  /** Non-negative scores stamped not after now. */
  predicate Settled(t: Trend, q: real, now: int) {
    0.0 < q <= 1.0 && forall m :: m in t.scores ==> m in t.at && t.at[m] <= now && t.scores[m] >= 0.0
  }

  lemma RunSettled(r: Rates, ops: seq<Op>, now: int)
    requires ValidRates(r) && Monotone(ops, now)
    ensures Settled(Run(r, ops), r.q, now)
  {
    hide Run, Monotone;
    forall m | m in Run(r, ops).scores
      ensures m in Run(r, ops).at && Run(r, ops).at[m] <= now && Run(r, ops).scores[m] >= 0.0
    {
      ScoresNotNegative(r, ops, m, now);
    }
  }

  /** Two decayed scores never cross after the later stamp. */
  lemma CurrentOrder(t: Trend, q: real, a: string, b: string, now: int)
    requires Settled(t, q, now) && a in t.scores && b in t.scores
    ensures Misplaced(t, q, a, b) <==>
      && Higher(Entry(a, t.scores[a]), Entry(b, t.scores[b]))
      && Higher(Entry(b, Current(t, q, now)[b]), Entry(a, Current(t, q, now)[a]))
  {
    DecayedScore(t, q, a, now);
    DecayedScore(t, q, b, now);
    hide Score, Pow, Faded, Less;
    if t.at[a] < t.at[b] {
      EarlierDecays(t.scores[a], t.at[a], t.scores[b], t.at[b], q, now);
      EarlierDecays(t.scores[b], t.at[b], t.scores[a], t.at[b], q, t.at[b]);
    } else {
      EarlierDecays(t.scores[b], t.at[b], t.scores[a], t.at[a], q, now);
      EarlierDecays(t.scores[a], t.at[a], t.scores[b], t.at[a], q, t.at[a]);
    }
  }

  /** The list served at any time, whatever its length, is the list by scores decayed to that time exactly when
      no two stored members are misplaced, a comparison of stored scores and stamps. */
  lemma StoredListsRightIff(r: Rates, ops: seq<Op>, now: int)
    requires ValidRates(r) && Monotone(ops, now)
    ensures var t := Run(r, ops);
            SameTops(t.scores, Current(t, r.q, now)) <==> forall a, b :: !Misplaced(t, r.q, a, b)
  {
    var t := Run(r, ops);
    RunSettled(r, ops, now);
    hide Run, Misplaced, Monotone, Settled, SameTops;
    if a, b :| Misplaced(t, r.q, a, b) {
      MisplacedShows(t, r.q, a, b, now);
    } else {
      NoneMisplaced(t, r.q, now);
    }
  }

  /** A misplaced pair shows in the list of all members. */
  lemma MisplacedShows(t: Trend, q: real, a: string, b: string, now: int)
    requires Settled(t, q, now) && Misplaced(t, q, a, b)
    ensures !SameTops(t.scores, Current(t, q, now))
  {
    var current := Current(t, q, now);
    CurrentOrder(t, q, a, b, now);
    assert current.Keys == t.scores.Keys && |current| == |current.Keys| && |t.scores| == |t.scores.Keys|;
    var top, i, j := FullTop(t.scores, a, b);
    var right, y, x := FullTop(current, b, a);
    hide Current, Misplaced, Settled, Higher, Lists;
    if Map(ItemOf, top) == Map(ItemOf, right) {
      assert Map(ItemOf, top)[i] == a == Map(ItemOf, right)[x];
      assert Map(ItemOf, top)[j] == b == Map(ItemOf, right)[y];
      TopNamesOnce(current, |t.scores|, right);
      OneOrder(Map(ItemOf, right), i, j, x, y);
    }
  }

  lemma OneOrder(items: seq<string>, i: nat, j: nat, x: nat, y: nat)
    requires NoDup(items) && i < j < |items| && y < x < |items| && items[i] == items[x]
    ensures items[j] != items[y]
  {
  }

  /** The list of all members, with one that stands higher before one that stands lower. */
  lemma FullTop(scores: map<string, real>, a: string, b: string) returns (top: seq<Entry>, i: nat, j: nat)
    requires a in scores && b in scores && Higher(Entry(a, scores[a]), Entry(b, scores[b]))
    ensures IsTop(scores, |scores|, top) && i < j < |top| && top[i].item == a && top[j].item == b
  {
    hide Higher, IsTop;
    top := WholeTop(scores);
    assert Entry(b, scores[b]) in top;
    j :| 0 <= j < |top| && top[j] == Entry(b, scores[b]);
    AboveIsListed(scores, |scores|, top, a, j);
    i :| 0 <= i < |top[..j]| && top[..j][i] == Entry(a, scores[a]);
  }

  lemma WholeTop(scores: map<string, real>) returns (top: seq<Entry>)
    ensures IsTop(scores, |scores|, top) && forall m :: m in scores ==> Entry(m, scores[m]) in top
  {
    var all := Listing(scores, scores.Keys);
    HigherIsWeak();
    SortFacts(Higher, all);
    hide Higher, SortBy, Sorted, StrictWeak, IsTop;
    SortedPrefixIsTop(scores, all, |scores|);
    top := SortBy(Higher, all);
    assert top[..|scores|] == top;
  }

  lemma AboveIsListed(scores: map<string, real>, k: int, top: seq<Entry>, a: string, j: nat)
    requires IsTop(scores, k, top) && j < |top| && a in scores && Higher(Entry(a, scores[a]), top[j])
    ensures Entry(a, scores[a]) in top[..j]
  {
    hide Higher;
  }

  lemma {:induction false} Listing(scores: map<string, real>, ms: set<string>) returns (all: seq<Entry>)
    requires ms <= scores.Keys
    ensures |all| == |ms| && (forall m :: m in ms ==> Entry(m, scores[m]) in all)
    ensures forall i :: 0 <= i < |all| ==> all[i].item in scores && scores[all[i].item] == all[i].score
    ensures ms == scores.Keys ==> Lists(scores, all)
  {
    if ms == {} {
      all := [];
    } else {
      var m :| m in ms;
      var rest := Listing(scores, ms - {m});
      all := [Entry(m, scores[m])] + rest;
      assert all[0] == Entry(m, scores[m]) && all[1..] == rest;
      forall x | x in ms ensures Entry(x, scores[x]) in all {
        if x != m { assert Entry(x, scores[x]) in rest; }
      }
    }
    assert |scores| == |scores.Keys|;
  }

  lemma TopNamesOnce(scores: map<string, real>, k: int, top: seq<Entry>)
    requires IsTop(scores, k, top)
    ensures NoDup(Map(ItemOf, top))
  {
    hide Less;
    var items := Map(ItemOf, top);
    forall i, j | 0 <= i < j < |items| ensures items[i] != items[j] {
      assert Higher(top[i], top[j]);
      LessTrichotomy(top[i].item, top[j].item);
    }
  }

  lemma NoneMisplaced(t: Trend, q: real, now: int)
    requires Settled(t, q, now) && forall a, b :: !Misplaced(t, q, a, b)
    ensures SameTops(t.scores, Current(t, q, now))
  {
    var current := Current(t, q, now);
    assert current.Keys == t.scores.Keys;
    forall a, b | a in t.scores && b in t.scores && Higher(Entry(a, t.scores[a]), Entry(b, t.scores[b]))
      ensures Higher(Entry(a, current[a]), Entry(b, current[b]))
    {
      CurrentOrder(t, q, a, b, now);
      StrictByName(t.scores, a, b);
      HigherTotal(Entry(a, current[a]), Entry(b, current[b]));
    }
    hide Current, Settled, Misplaced, Higher, IsTop;
    forall k, top, right | IsTop(t.scores, k, top) && IsTop(current, k, right)
      ensures Map(ItemOf, top) == Map(ItemOf, right)
    {
      SameOrderSameTop(t.scores, current, k, top, right);
    }
  }

  lemma StrictByName(scores: map<string, real>, a: string, b: string)
    requires a in scores && b in scores && Higher(Entry(a, scores[a]), Entry(b, scores[b]))
    ensures a != b
  {
    LessTrichotomy(a, b);
  }

  lemma HigherTotal(a: Entry, b: Entry)
    requires a.item != b.item
    ensures Higher(a, b) || Higher(b, a)
  {
    LessTrichotomy(a.item, b.item);
  }

  /** The scores y order the members as x do. */
  predicate OrdersAs(x: map<string, real>, y: map<string, real>) {
    x.Keys == y.Keys
    && forall a, b :: a in x && b in x && Higher(Entry(a, x[a]), Entry(b, x[b])) ==> Higher(Entry(a, y[a]), Entry(b, y[b]))
  }

  /** Scores that order the members alike have the same top lists. */
  lemma SameOrderSameTop(x: map<string, real>, y: map<string, real>, k: int, top: seq<Entry>, right: seq<Entry>)
    requires OrdersAs(x, y) && IsTop(x, k, top) && IsTop(y, k, right)
    ensures Map(ItemOf, top) == Map(ItemOf, right)
  {
    hide IsTop, OrdersAs;
    SameSize(x, y, k, top, right);
    var i := 0;
    while i < |top|
      invariant i <= |top| == |right| && forall j :: 0 <= j < i ==> top[j].item == right[j].item
    {
      SameNext(x, y, k, top, right, i);
      i := i + 1;
    }
  }

  lemma SameSize(x: map<string, real>, y: map<string, real>, k: int, top: seq<Entry>, right: seq<Entry>)
    requires OrdersAs(x, y) && IsTop(x, k, top) && IsTop(y, k, right)
    ensures |top| == |right|
  {
    hide Higher;
    assert |x| == |x.Keys| && |y| == |y.Keys|;
  }

  lemma SameNext(x: map<string, real>, y: map<string, real>, k: int, top: seq<Entry>, right: seq<Entry>, i: nat)
    requires OrdersAs(x, y) && IsTop(x, k, top) && IsTop(y, k, right) && i < |top| && |top| == |right|
    requires forall j :: 0 <= j < i ==> top[j].item == right[j].item
    ensures top[i].item == right[i].item
  {
    hide Higher;
    var a, b := top[i].item, right[i].item;
    if a != b {
      HigherTotal(Entry(a, x[a]), Entry(b, x[b]));
      if Higher(Entry(a, x[a]), Entry(b, x[b])) {
        assert Entry(a, y[a]) in right[..i];
        var j :| 0 <= j < |right[..i]| && right[..i][j] == Entry(a, y[a]);
        assert top[j].item == a && Higher(top[j], top[i]);
        StrictByName(x, a, a);
      } else {
        assert Entry(b, x[b]) in top[..i];
        var j :| 0 <= j < |top[..i]| && top[..i][j] == Entry(b, x[b]);
        assert right[j].item == b && Higher(right[j], right[i]);
        StrictByName(y, b, b);
      }
    }
  }

  /** No stored member stands above one stamped later. */
  ghost predicate FreshFirst(t: Trend) {
    forall a, b :: Stands(t, a) && Stands(t, b) && Higher(Entry(a, t.scores[a]), Entry(b, t.scores[b])) ==>
      t.at[a] >= t.at[b]
  }

  /** What a reader can check beforehand: where no member stands above a later stamped one the list is right. */
  lemma FreshFirstIsRight(r: Rates, ops: seq<Op>, now: int)
    requires ValidRates(r) && Monotone(ops, now) && FreshFirst(Run(r, ops))
    ensures SameTops(Run(r, ops).scores, Current(Run(r, ops), r.q, now))
  {
    var t := Run(r, ops);
    RunSettled(r, ops, now);
    hide Run, FreshFirst, Misplaced, SameTops, Settled, Monotone;
    forall a, b ensures !Misplaced(t, r.q, a, b) {
      NotOverFresher(t, r.q, a, b, now);
    }
    StoredListsRightIff(r, ops, now);
  }

  lemma NotOverFresher(t: Trend, q: real, a: string, b: string, now: int)
    requires Settled(t, q, now) && FreshFirst(t)
    ensures !Misplaced(t, q, a, b)
  {
    hide Faded, Less;
    LessTrichotomy(a, b);
    if a in t.scores && b in t.scores && t.at[a] >= t.at[b] {
      FadedRange(t.scores[b], q, t.at[a] - t.at[b]);
      FadedRange(t.scores[a], q, 0);
    }
  }

  /** The worker reads the list after its sweep. With no bump in between, or only bumps in the second of the
      sweep, every list is the one by scores decayed to the time of reading. */
  lemma SweptListIsRight(r: Rates, ops: seq<Op>, more: seq<Op>, time: int, now: int)
    requires ValidRates(r) && Monotone(ops, time) && time <= now
    requires forall i :: 0 <= i < |more| ==> more[i].time == time
    ensures var run := ops + [SweepAt(time)] + more;
            Monotone(run, now) && SameTops(Run(r, run).scores, Current(Run(r, run), r.q, now))
  {
    var run := ops + [SweepAt(time)] + more;
    OneStamp(r, ops, more, time);
    Later(run, time, now);
    RunSettled(r, run, now);
    hide Run, Monotone, Higher, SameTops;
    FreshFirstIsRight(r, run, now);
  }

  lemma {:induction false} OneStamp(r: Rates, ops: seq<Op>, more: seq<Op>, time: int)
    requires ValidRates(r) && Monotone(ops, time) && forall i :: 0 <= i < |more| ==> more[i].time == time
    ensures var run := ops + [SweepAt(time)] + more;
            && Monotone(run, time)
            && forall m :: m in Run(r, run).scores ==> m in Run(r, run).at && Run(r, run).at[m] == time
  {
    hide Score;
    var run := ops + [SweepAt(time)] + more;
    if more == [] {
      assert run == ops + [SweepAt(time)] && run[..|run| - 1] == ops;
    } else {
      OneStamp(r, ops, more[..|more| - 1], time);
      assert run[..|run| - 1] == ops + [SweepAt(time)] + more[..|more| - 1];
      assert run[|run| - 1] == more[|more| - 1];
    }
  }

  /** Read at any time, a clear exact lead can fail to show only over an item stamped earlier. */
  lemma FresherTrailerStaysBehind(r: Rates, ops: seq<Op>, a: string, b: string, now: int)
    requires ValidRates(r) && Monotone(ops, now) && b in Run(r, ops).scores
    requires Exact(r.q, ops, a, now) >= Exact(r.q, ops, b, now) + r.floor / (1.0 - r.floor)
    ensures var t := Run(r, ops);
            a in t.scores && a in t.at && b in t.at && (t.at[a] <= t.at[b] ==> t.scores[a] > t.scores[b])
  {
    var t := Run(r, ops);
    ClearLeadsSurvive(r, ops, a, b, now);
    RunSettled(r, ops, now);
    hide Run, Exact, Monotone, Score;
    if t.at[a] <= t.at[b] {
      FresherCompare(t, r.q, a, b, now);
    }
  }

  lemma FresherCompare(t: Trend, q: real, a: string, b: string, now: int)
    requires Settled(t, q, now) && a in t.scores && b in t.scores && t.at[a] <= t.at[b]
    requires Score(t, q, a, now) > Score(t, q, b, now)
    ensures t.scores[a] > t.scores[b]
  {
    hide Score, Faded;
    DecayedScore(t, q, a, now);
    DecayedScore(t, q, b, now);
    EarlierDecays(t.scores[a], t.at[a], t.scores[b], t.at[b], q, now);
  }

  /** A bump of a at 3 against two of b at 0, halving every second: a leads by more than the slack, and the
      unswept list puts b first. */
  lemma UnsweptListMisranks(top: seq<Entry>)
    requires IsTop(Run(Rates(0.5, 0.25), [BumpAt("b", 0), BumpAt("b", 0), BumpAt("a", 3)]).scores, 1, top)
    ensures var r, ops := Rates(0.5, 0.25), [BumpAt("b", 0), BumpAt("b", 0), BumpAt("a", 3)];
            && Monotone(ops, 3) && Exact(r.q, ops, "a", 3) >= Exact(r.q, ops, "b", 3) + r.floor / (1.0 - r.floor)
            && top == [Entry("b", 2.0)]
  {
    var r, ops := Rates(0.5, 0.25), [BumpAt("b", 0), BumpAt("b", 0), BumpAt("a", 3)];
    MisrankedRun(r, ops);
    hide Run, Exact, Pow;
    var scores := Run(r, ops).scores;
    assert Higher(Entry("b", 2.0), Entry("a", 1.0));
    assert scores.Keys == {"a", "b"} && |scores| == |scores.Keys|;
    assert top[..0] == [] && Higher(Entry("b", scores["b"]), Entry("a", scores["a"]));
  }

  lemma MisrankedRun(r: Rates, ops: seq<Op>)
    requires r == Rates(0.5, 0.25) && ops == [BumpAt("b", 0), BumpAt("b", 0), BumpAt("a", 3)]
    ensures Run(r, ops).scores == map["a" := 1.0, "b" := 2.0] && "a" != "b"
    ensures Monotone(ops, 3) && Exact(r.q, ops, "a", 3) == 1.0 && Exact(r.q, ops, "b", 3) == 0.25
  {
    assert "a" != "b" by { assert "a"[0] != "b"[0]; }
    var one, two := ops[..1], ops[..2];
    assert ops[..|ops| - 1] == two && two[..1] == one && one[..0] == [];
    assert Run(r, one) == Trend(map["b" := 1.0], map["b" := 0]);
    assert Run(r, two) == Trend(map["b" := 2.0], map["b" := 0]);
    assert Monotone([], 0) && Monotone(one, 0) && Monotone(two, 0) && Monotone(two, 3);
    assert Pow(0.5, 0) == 1.0 && Pow(0.5, 1) == 0.5 && Pow(0.5, 2) == 0.25 && Pow(0.5, 3) == 0.125;
    Later([], 0, 3);
    Later(one, 0, 3);
    assert Exact(0.5, one, "b", 3) == 0.125 && Exact(0.5, one, "a", 3) == 0.0;
    assert Exact(0.5, two, "b", 3) == 0.25 && Exact(0.5, two, "a", 3) == 0.0;
  }

  predicate Sweepless(ops: seq<Op>) {
    forall k :: 0 <= k < |ops| ==> ops[k].BumpAt?
  }

  /** Lazy decay alone is exact. */
  lemma {:induction false} LazyDecayIsExact(r: Rates, ops: seq<Op>, m: string, now: int)
    requires ValidRates(r) && Monotone(ops, now) && Sweepless(ops)
    ensures Score(Run(r, ops), r.q, m, now) == Exact(r.q, ops, m, now)
    ensures m in Run(r, ops).scores ==> m in Run(r, ops).at && Run(r, ops).at[m] <= now
  {
    hide Exact, Pow, Score, Faded;
    if ops == [] {
      NothingScored(r.q, m, now);
    } else {
      var op, init := ops[|ops| - 1], ops[..|ops| - 1];
      assert op.BumpAt? && Sweepless(init);
      LazyDecayIsExact(r, init, m, op.time);
      BumpedScore(Run(r, init), r.q, op.item, m, op.time);
      ExactAtLast(r.q, ops, m);
      ExactDecays(r.q, ops, m, op.time, now);
      ScoreDecays(Run(r, ops), r.q, m, op.time, now);
    }
  }

  lemma NothingScored(q: real, m: string, now: int)
    ensures Score(Trend(map[], map[]), q, m, now) == Exact(q, [], m, now) == 0.0
  {
  }
}
