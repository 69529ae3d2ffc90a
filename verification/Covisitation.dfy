/** The from-scratch co-visitation rebuild: pair counts, subject floor and published scores, all read
    off the retained event ledger. */
module Covisitation {
  import opened Wrappers
  import opened TextOrder
  import opened SubjectFloor

  datatype Source = Watch | Search

  /** A behavior_events row; source is the matrix its type feeds, if any. */
  datatype Event = Event(
    id: int, source: Option<Source>, session: Option<string>, query: Option<string>,
    video: Option<string>, at: real, user: Option<string>, subject: Option<string>)

  type Ledger = set<Event>

  // ----- pairing -----

  predicate Usable(e: Event, s: Source) {
    e.source == Some(s) && e.session.Some? && e.video.Some? && (s.Search? ==> e.query.Some?)
  }

  /** The earlier event p is co-visited by the anchor n within the window. */
  predicate Paired(n: Event, p: Event, s: Source, window: real) {
    && Usable(n, s) && Usable(p, s)
    && p.session == n.session && (s.Search? ==> p.query == n.query)
    && p.id < n.id && p.video != n.video
    && -window <= n.at - p.at <= window
  }

  datatype Visit = Visit(anchor: Event, earlier: Event)

  function AllVisits(l: Ledger, s: Source, window: real): set<Visit> {
    set n, p | n in l && p in l && Paired(n, p, s, window) :: Visit(n, p)
  }

  predicate Joins(x: Visit, a: string, b: string) {
    (x.anchor.video == Some(a) && x.earlier.video == Some(b)) || (x.anchor.video == Some(b) && x.earlier.video == Some(a))
  }

  predicate Touches(x: Visit, a: string) {
    x.anchor.video == Some(a) || x.earlier.video == Some(a)
  }

  /** The visits of one unordered pair of videos. */
  function Visits(l: Ledger, s: Source, window: real, a: string, b: string): set<Visit> {
    set x | x in AllVisits(l, s, window) && Joins(x, a, b)
  }

  function Cooc(l: Ledger, s: Source, window: real, a: string, b: string): nat {
    |Visits(l, s, window, a, b)|
  }

  /** A video's co-occurrence mass: every visit it takes part in. */
  function Mass(l: Ledger, s: Source, window: real, a: string): nat {
    |AllTouching(l, s, window, a)|
  }

  function AllTouching(l: Ledger, s: Source, window: real, a: string): set<Visit> {
    set x | x in AllVisits(l, s, window) && Touches(x, a)
  }

  function SumCooc(l: Ledger, s: Source, window: real, a: string, others: seq<string>): nat {
    if others == [] then 0
    else SumCooc(l, s, window, a, others[..|others| - 1]) + Cooc(l, s, window, a, others[|others| - 1])
  }

  /** The visits between a video and any of the others. */
  function VisitsWith(l: Ledger, s: Source, window: real, a: string, others: seq<string>): set<Visit> {
    set x | x in AllVisits(l, s, window) && exists b :: b in others && Joins(x, a, b)
  }

  lemma {:induction false} SumCoocCounts(l: Ledger, s: Source, window: real, a: string, others: seq<string>)
    requires NoDup(others)
    ensures SumCooc(l, s, window, a, others) == |VisitsWith(l, s, window, a, others)|
  {
    if others != [] {
      SumCoocCounts(l, s, window, a, others[..|others| - 1]);
      LastVisits(l, s, window, a, others);
    }
  }

  lemma LastVisits(l: Ledger, s: Source, window: real, a: string, others: seq<string>)
    requires NoDup(others) && others != []
    ensures var before, visits := VisitsWith(l, s, window, a, others[..|others| - 1]), Visits(l, s, window, a, others[|others| - 1]);
            VisitsWith(l, s, window, a, others) == before + visits && before !! visits
  {
    hide AllVisits;
    var init, last := others[..|others| - 1], others[|others| - 1];
    var joined, before := VisitsWith(l, s, window, a, others), VisitsWith(l, s, window, a, init);
    var visits := Visits(l, s, window, a, last);
    forall x | x in joined ensures x in before + visits {
      var b :| b in others && Joins(x, a, b);
      assert b == last || b in init;
    }
    forall x | x in before ensures x in joined && x !in visits {
      var b :| b in init && Joins(x, a, b);
      assert b in others && b != last;
    }
    assert last in others;
  }

  /** The mass is the sum of the pair counts over all other videos, whatever list enumerates them. */
  lemma MassIsSum(l: Ledger, s: Source, window: real, a: string, others: seq<string>)
    requires NoDup(others) && forall e :: e in l && e.video.Some? ==> e.video.value in others
    ensures Mass(l, s, window, a) == SumCooc(l, s, window, a, others)
  {
    SumCoocCounts(l, s, window, a, others);
    var touching := AllTouching(l, s, window, a);
    forall x | x in touching ensures x in VisitsWith(l, s, window, a, others) {
      var b := if x.anchor.video == Some(a) then x.earlier.video.value else x.anchor.video.value;
      assert b in others && Joins(x, a, b);
    }
    assert touching == VisitsWith(l, s, window, a, others);
  }

  // ----- the subject floor -----

  function PersonOf(e: Event): Person {
    Person(e.user, e.subject, e.session)
  }

  /** The people behind a set of visits, taken from the anchors. */
  function People(xs: set<Visit>): set<Person> {
    set x | x in xs :: PersonOf(x.anchor)
  }

  predicate ClearsFloor(l: Ledger, s: Source, window: real, floor: int, a: string, b: string) {
    var xs := Visits(l, s, window, a, b);
    xs != {} && Subjects(People(xs)) >= floor
  }

  /** Deleting rows, by retention or by a purge, never lifts a pair over the floor. */
  lemma DeletionNeverPublishes(l: Ledger, kept: Ledger, s: Source, window: real, floor: int, a: string, b: string)
    requires kept <= l
    ensures Visits(kept, s, window, a, b) <= Visits(l, s, window, a, b)
    ensures ClearsFloor(kept, s, window, floor, a, b) ==> ClearsFloor(l, s, window, floor, a, b)
  {
    hide Subjects;
    FewerPeople(People(Visits(kept, s, window, a, b)), People(Visits(l, s, window, a, b)));
  }

  function Anonymized(e: Event, u: string): Event {
    if e.user == Some(u) then e.(user := None) else e
  }

  /** The ledger after nulling an account's user_id instead of deleting its rows. */
  function AnonymizedLedger(l: Ledger, u: string): Ledger {
    set e | e in l :: Anonymized(e, u)
  }

  /** Nulling an account keeps its visits, so the subject count of a pair shifts as NullingShift says. */
  lemma AnonymizingShift(l: Ledger, s: Source, window: real, a: string, b: string, u: string)
    ensures var before, after := Visits(l, s, window, a, b), Visits(AnonymizedLedger(l, u), s, window, a, b);
            && (after == {} <==> before == {})
            && Subjects(People(after)) == Subjects(People(before)) - (if u in Accounts(People(before)) then 1 else 0)
                                          + |Fallbacks(People(before), u) - Anonymous(People(before))|
  {
    var before, after := Visits(l, s, window, a, b), Visits(AnonymizedLedger(l, u), s, window, a, b);
    AnonymizedVisits(l, s, window, a, b, u);
    RenamedPeople(before, after, u);
    hide Visits, Subjects, People, Fallbacks, Accounts, Anonymous, AnonymizedLedger, Renamed;
    NullingShift(People(before), u);
  }

  lemma RenamedPeople(before: set<Visit>, after: set<Visit>, u: string)
    requires forall x :: x in before ==> Renamed(x, u) in after
    requires forall y :: y in after ==> exists x :: x in before && y == Renamed(x, u)
    ensures People(after) == NulledAll(People(before), u) && (after == {} <==> before == {})
  {
    forall q | q in NulledAll(People(before), u) ensures q in People(after) {
      var p :| p in People(before) && q == Nulled(p, u);
      var x :| x in before && p == PersonOf(x.anchor);
      assert Renamed(x, u) in after && PersonOf(Renamed(x, u).anchor) == q;
    }
    forall q | q in People(after) ensures q in NulledAll(People(before), u) {
      var y :| y in after && q == PersonOf(y.anchor);
      var x :| x in before && y == Renamed(x, u);
      assert PersonOf(x.anchor) in People(before) && q == Nulled(PersonOf(x.anchor), u);
    }
    if x :| x in before { assert Renamed(x, u) in after; }
  }

  function Renamed(x: Visit, u: string): Visit {
    Visit(Anonymized(x.anchor, u), Anonymized(x.earlier, u))
  }

  lemma AnonymizedVisits(l: Ledger, s: Source, window: real, a: string, b: string, u: string)
    ensures var before, after := Visits(l, s, window, a, b), Visits(AnonymizedLedger(l, u), s, window, a, b);
            && (forall x :: x in before ==> Renamed(x, u) in after)
            && (forall y :: y in after ==> exists x :: x in before && y == Renamed(x, u))
  {
    var before, after := Visits(l, s, window, a, b), Visits(AnonymizedLedger(l, u), s, window, a, b);
    forall x | x in before ensures Renamed(x, u) in after {
      assert Paired(x.anchor, x.earlier, s, window);
      assert Anonymized(x.anchor, u) in AnonymizedLedger(l, u) && Anonymized(x.earlier, u) in AnonymizedLedger(l, u);
      assert Paired(Anonymized(x.anchor, u), Anonymized(x.earlier, u), s, window);
    }
    forall y | y in after ensures exists x :: x in before && y == Renamed(x, u) {
      var n :| n in l && Anonymized(n, u) == y.anchor;
      var p :| p in l && Anonymized(p, u) == y.earlier;
      assert Paired(y.anchor, y.earlier, s, window);
      assert Paired(n, p, s, window);
      assert Visit(n, p) in before;
    }
  }

  function Watched(id: int, session: string, video: string): Event {
    Event(id, Some(Watch), Some(session), None, Some(video), 0.0, Some("u"), None)
  }

  /** One account that co-watched a and b in each of two sessions. */
  function TwoSessions(): Ledger {
    {Watched(1, "s", "a"), Watched(2, "s", "b"), Watched(3, "t", "a"), Watched(4, "t", "b")}
  }

  /** One account's two sessions publish nothing under a floor of two, until its user_id is nulled. */
  lemma AnonymizingCanPublish()
    ensures !ClearsFloor(TwoSessions(), Watch, 0.0, 2, "a", "b")
    ensures ClearsFloor(AnonymizedLedger(TwoSessions(), "u"), Watch, 0.0, 2, "a", "b")
  {
    hide Visits, People, Subjects, Accounts, Anonymous, Fallbacks, AnonymizedLedger, TwoSessions;
    TwoSessionsVisits();
    AnonymizingShift(TwoSessions(), Watch, 0.0, "a", "b", "u");
  }

  lemma TwoSessionsVisits()
    ensures var xs := Visits(TwoSessions(), Watch, 0.0, "a", "b");
            && xs != {} && Subjects(People(xs)) == 1 && "u" in Accounts(People(xs))
            && |Fallbacks(People(xs), "u") - Anonymous(People(xs))| == 2
  {
    var xs := Visits(TwoSessions(), Watch, 0.0, "a", "b");
    var x, y := Visit(Watched(2, "s", "b"), Watched(1, "s", "a")), Visit(Watched(4, "t", "b"), Watched(3, "t", "a"));
    TwoSessionsHoldTwoVisits(xs, x, y);
    var s, t := Person(Some("u"), None, Some("s")), Person(Some("u"), None, Some("t"));
    assert People(xs) == {s, t} by {
      hide TwoSessions, Visits, AllVisits;
      PeopleOfTwo(xs, x, y);
    }
    hide TwoSessions, Visits, People, Subjects, Accounts, Fallbacks, Anonymous;
    TwoPeople(People(xs), s, t);
  }

  lemma TwoSessionsHoldTwoVisits(xs: set<Visit>, x: Visit, y: Visit)
    requires xs == Visits(TwoSessions(), Watch, 0.0, "a", "b")
    requires x == Visit(Watched(2, "s", "b"), Watched(1, "s", "a")) && y == Visit(Watched(4, "t", "b"), Watched(3, "t", "a"))
    ensures xs == {x, y}
  {
    hide Visits, TwoSessions, Watched, Paired, Joins;
    FourEvents();
    WatchedPair(2, 1, "s");
    WatchedPair(4, 3, "t");
    VisitParts(TwoSessions(), Watch, 0.0, "a", "b", x);
    VisitParts(TwoSessions(), Watch, 0.0, "a", "b", y);
    forall z | z in xs ensures z == x || z == y {
      VisitParts(TwoSessions(), Watch, 0.0, "a", "b", z);
      OnlyTwoPair(z.anchor, z.earlier);
    }
  }

  lemma FourEvents()
    ensures Watched(1, "s", "a") in TwoSessions() && Watched(2, "s", "b") in TwoSessions()
    ensures Watched(3, "t", "a") in TwoSessions() && Watched(4, "t", "b") in TwoSessions()
  {
  }

  lemma WatchedPair(n: int, p: int, session: string)
    requires p < n
    ensures Paired(Watched(n, session, "b"), Watched(p, session, "a"), Watch, 0.0)
    ensures Joins(Visit(Watched(n, session, "b"), Watched(p, session, "a")), "a", "b")
  {
    assert "a" != "b" by { assert "a"[0] != "b"[0]; }
  }

  lemma VisitParts(l: Ledger, s: Source, window: real, a: string, b: string, x: Visit)
    ensures x in Visits(l, s, window, a, b) <==>
            x.anchor in l && x.earlier in l && Paired(x.anchor, x.earlier, s, window) && Joins(x, a, b)
  {
    hide Paired, Joins;
  }

  lemma OnlyTwoPair(n: Event, p: Event)
    requires n in TwoSessions() && p in TwoSessions() && Paired(n, p, Watch, 0.0)
    ensures (n == Watched(2, "s", "b") && p == Watched(1, "s", "a")) || (n == Watched(4, "t", "b") && p == Watched(3, "t", "a"))
  {
    assert "s" != "t" by { assert "s"[0] != "t"[0]; }
  }

  lemma PeopleOfTwo(xs: set<Visit>, x: Visit, y: Visit)
    requires xs == {x, y}
    ensures People(xs) == {PersonOf(x.anchor), PersonOf(y.anchor)}
  {
    assert x in xs && y in xs;
  }

  lemma TwoPeople(ps: set<Person>, s: Person, t: Person)
    requires ps == {s, t} && s == Person(Some("u"), None, Some("s")) && t == Person(Some("u"), None, Some("t"))
    ensures Subjects(ps) == 1 && "u" in Accounts(ps) && |Fallbacks(ps, "u") - Anonymous(ps)| == 2
  {
    assert "s" != "t" by { assert "s"[0] != "t"[0]; }
    assert s in ps && t in ps;
    assert Accounts(ps) == {"u"} && Anonymous(ps) == {};
    assert Fallback(s) == Some("s") && Fallback(t) == Some("t");
    assert Fallbacks(ps, "u") == {"s", "t"};
    assert Fallbacks(ps, "u") - Anonymous(ps) == {"s", "t"};
  }

  // ----- scores -----

  ghost predicate SquareRoot(sqrt: real -> real) {
    forall x :: x >= 0.0 ==> sqrt(x) >= 0.0 && sqrt(x) * sqrt(x) == x
  }

  datatype Params = Params(window: real, floor: int, lambda: real, topM: nat)

  predicate ValidParams(p: Params) {
    p.lambda >= 0.0
  }

  function ShrunkCosine(sqrt: real -> real, cooc: nat, ti: nat, tj: nat, lambda: real): real
    requires SquareRoot(sqrt) && lambda >= 0.0
  {
    if cooc == 0 || ti == 0 || tj == 0 then 0.0
    else
      RootPositive(sqrt, ti, tj);
      (cooc as real / sqrt(ti as real * tj as real)) * (cooc as real / (cooc as real + lambda))
  }

  lemma RootPositive(sqrt: real -> real, ti: nat, tj: nat)
    requires SquareRoot(sqrt) && ti > 0 && tj > 0
    ensures sqrt(ti as real * tj as real) > 0.0
  {
    assert ti as real * tj as real > 0.0;
  }

  /** One source's share of a pair's score, zero below the floor. */
  function Share(l: Ledger, sqrt: real -> real, s: Source, p: Params, a: string, b: string): real
    requires SquareRoot(sqrt) && ValidParams(p)
  {
    if ClearsFloor(l, s, p.window, p.floor, a, b)
    then ShrunkCosine(sqrt, Cooc(l, s, p.window, a, b), Mass(l, s, p.window, a), Mass(l, s, p.window, b), p.lambda)
    else 0.0
  }

  function Score(l: Ledger, sqrt: real -> real, p: Params, a: string, b: string): real
    requires SquareRoot(sqrt) && ValidParams(p)
  {
    0.7 * Share(l, sqrt, Watch, p, a, b) + 0.3 * Share(l, sqrt, Search, p, a, b)
  }

  lemma CosineRange(sqrt: real -> real, c: nat, ti: nat, tj: nat, lambda: real)
    requires SquareRoot(sqrt) && lambda >= 0.0 && 0 < c <= ti && c <= tj
    ensures 0.0 < ShrunkCosine(sqrt, c, ti, tj, lambda) <= 1.0
  {
    RootAtLeast(sqrt, c, ti, tj);
    hide SquareRoot;
    ShrunkBounds(c as real, sqrt(ti as real * tj as real), lambda);
  }

  lemma RootAtLeast(sqrt: real -> real, c: nat, ti: nat, tj: nat)
    requires SquareRoot(sqrt) && 0 < c <= ti && c <= tj
    ensures c as real <= sqrt(ti as real * tj as real)
  {
    RootPositive(sqrt, ti, tj);
    var x, m := c as real, ti as real * tj as real;
    assert sqrt(m) * sqrt(m) == m;
    ProductGrows(x, ti as real, tj as real);
    RootBound(x, sqrt(m));
  }

  lemma ShrunkBounds(x: real, root: real, lambda: real)
    requires 0.0 < x <= root && lambda >= 0.0
    ensures 0.0 < (x / root) * (x / (x + lambda)) <= 1.0
  {
    Fraction(x, root);
    Fraction(x, x + lambda);
    ProductInUnit(x / root, x / (x + lambda));
  }

  lemma ProductGrows(x: real, y: real, z: real)
    requires 0.0 < x <= y && x <= z
    ensures x * x <= y * z
  {
    assert x * x <= x * z;
    assert x * z <= y * z;
  }

  lemma RootBound(x: real, root: real)
    requires x > 0.0 && root > 0.0 && x * x <= root * root
    ensures x <= root
  {
  }

  lemma Fraction(x: real, y: real)
    requires 0.0 < x <= y
    ensures 0.0 < x / y <= 1.0
  {
    assert x == (x / y) * y;
  }

  lemma ProductInUnit(x: real, y: real)
    requires 0.0 < x <= 1.0 && 0.0 < y <= 1.0
    ensures 0.0 < x * y <= 1.0
  {
    assert x * y <= y;
  }

  lemma CoocWithinMass(l: Ledger, s: Source, window: real, a: string, b: string)
    ensures Cooc(l, s, window, a, b) <= Mass(l, s, window, a)
    ensures Cooc(l, s, window, a, b) <= Mass(l, s, window, b)
    ensures Visits(l, s, window, a, b) == Visits(l, s, window, b, a)
  {
    var xs := Visits(l, s, window, a, b);
    SubsetCard(xs, AllTouching(l, s, window, a));
    SubsetCard(xs, AllTouching(l, s, window, b));
  }

  lemma ShareRange(l: Ledger, sqrt: real -> real, s: Source, p: Params, a: string, b: string)
    requires SquareRoot(sqrt) && ValidParams(p)
    ensures Share(l, sqrt, s, p, a, b) == Share(l, sqrt, s, p, b, a)
    ensures 0.0 <= Share(l, sqrt, s, p, a, b) <= 1.0
    ensures Share(l, sqrt, s, p, a, b) > 0.0 <==> ClearsFloor(l, s, p.window, p.floor, a, b)
  {
    CoocWithinMass(l, s, p.window, a, b);
    var c, ti, tj := Cooc(l, s, p.window, a, b), Mass(l, s, p.window, a), Mass(l, s, p.window, b);
    hide Visits, Mass, Subjects;
    if c > 0 {
      CosineRange(sqrt, c, ti, tj, p.lambda);
      MassesCommute(sqrt, c, ti, tj, p.lambda);
    }
  }

  lemma MassesCommute(sqrt: real -> real, c: nat, ti: nat, tj: nat, lambda: real)
    requires SquareRoot(sqrt) && lambda >= 0.0
    ensures ShrunkCosine(sqrt, c, ti, tj, lambda) == ShrunkCosine(sqrt, c, tj, ti, lambda)
  {
    assert ti as real * tj as real == tj as real * ti as real;
  }

  /** Scores are symmetric, lie in [0, 1], and are positive exactly for the pairs that clear the floor
      in some source. */
  lemma ScoreRange(l: Ledger, sqrt: real -> real, p: Params, a: string, b: string)
    requires SquareRoot(sqrt) && ValidParams(p)
    ensures Score(l, sqrt, p, a, b) == Score(l, sqrt, p, b, a)
    ensures 0.0 <= Score(l, sqrt, p, a, b) <= 1.0
    ensures Score(l, sqrt, p, a, b) > 0.0 <==>
            ClearsFloor(l, Watch, p.window, p.floor, a, b) || ClearsFloor(l, Search, p.window, p.floor, a, b)
  {
    ShareRange(l, sqrt, Watch, p, a, b);
    ShareRange(l, sqrt, Search, p, a, b);
    hide Share, ClearsFloor;
  }

  /** The floor gates publication, not counting: raising it leaves every score that stays untouched. */
  lemma FloorOnlyGates(l: Ledger, sqrt: real -> real, p: Params, floor: int, a: string, b: string)
    requires SquareRoot(sqrt) && ValidParams(p) && p.floor <= floor
    ensures forall s: Source ::
      Share(l, sqrt, s, p.(floor := floor), a, b) == Share(l, sqrt, s, p, a, b) || Share(l, sqrt, s, p.(floor := floor), a, b) == 0.0
    ensures Score(l, sqrt, p.(floor := floor), a, b) <= Score(l, sqrt, p, a, b)
  {
    var q := p.(floor := floor);
    ShareRange(l, sqrt, Watch, p, a, b);
    ShareRange(l, sqrt, Search, p, a, b);
    forall s: Source
      ensures Share(l, sqrt, s, q, a, b) == Share(l, sqrt, s, p, a, b) || Share(l, sqrt, s, q, a, b) == 0.0
    {
      hide Visits, Mass, Subjects, ShrunkCosine;
      assert ClearsFloor(l, s, p.window, q.floor, a, b) ==> ClearsFloor(l, s, p.window, p.floor, a, b);
    }
    hide Share;
    assert Share(l, sqrt, Watch, q, a, b) <= Share(l, sqrt, Watch, p, a, b);
    assert Share(l, sqrt, Search, q, a, b) <= Share(l, sqrt, Search, p, a, b);
  }

  // ----- the published index -----

  function Videos(l: Ledger): set<string> {
    set e | e in l && e.video.Some? :: e.video.value
  }

  /** The scored neighbors of a video. */
  function Candidates(l: Ledger, sqrt: real -> real, p: Params, a: string): map<string, real>
    requires SquareRoot(sqrt) && ValidParams(p)
  {
    map b | b in Videos(l) && Score(l, sqrt, p, a, b) > 0.0 :: Score(l, sqrt, p, a, b)
  }

  /** Best score first, ids break ties. */
  predicate Before(row: map<string, real>, x: string, y: string)
    requires x in row && y in row
  {
    row[x] > row[y] || (row[x] == row[y] && Less(x, y))
  }

  function Rank(row: map<string, real>, x: string): nat
    requires x in row
  {
    |set y | y in row && Before(row, y, x)|
  }

  function Kept(row: map<string, real>, m: nat): map<string, real> {
    map x | x in row && Rank(row, x) < m :: row[x]
  }

  /** Some neighbor comes after all others. */
  lemma {:induction false} LastOf(row: map<string, real>) returns (z: string)
    requires row != map[]
    ensures z in row && forall y :: y in row && y != z ==> Before(row, y, z)
    decreases |row|
  {
    hide Before;
    var x :| x in row;
    var rest := row - {x};
    z := x;
    assert forall y :: y in row && y != x ==> y in rest;
    if rest != map[] {
      var w := LastOf(rest);
      assert w in row && w != x;
      forall y | y in row && y != w && y != x ensures Before(row, y, w) {
        assert y in rest;
        SameOrder(rest, row, y, w);
      }
      OneIsBefore(row, x, w);
      if Before(row, x, w) {
        z := w;
      } else {
        forall y | y in row && y != x ensures Before(row, y, x) {
          if y != w {
            BeforeTransitive(row, y, w, x);
          }
        }
      }
    }
  }

  lemma SameOrder(rest: map<string, real>, row: map<string, real>, x: string, y: string)
    requires x in rest && y in rest && x in row && y in row && rest[x] == row[x] && rest[y] == row[y] && Before(rest, x, y)
    ensures Before(row, x, y)
  {
    hide Less;
  }

  /** The row-number cut keeps the m best neighbors: m of them, or all when there are fewer, and nothing
      kept is behind something dropped. */
  lemma KeepsTheBest(row: map<string, real>, m: nat)
    ensures |Kept(row, m)| == if |row| < m then |row| else m
    ensures forall x, y :: x in row && y in Kept(row, m) && Before(row, x, y) ==> x in Kept(row, m)
  {
    hide Before, Rank;
    KeptCount(row, m);
    forall x, y | x in row && y in Kept(row, m) && Before(row, x, y) ensures x in Kept(row, m) {
      BeforeRanks(row, x, y);
    }
  }

  lemma {:induction false} KeptCount(row: map<string, real>, m: nat)
    ensures |Kept(row, m)| == if |row| < m then |row| else m
    decreases |row|
  {
    hide Before, Rank;
    if row == map[] {
      assert Kept(row, m) == map[];
    } else {
      var z := LastOf(row);
      var rest := row - {z};
      WithoutLast(row, rest, z);
      KeptCount(rest, m);
      var last := if |rest| < m then {z} else {};
      assert Kept(row, m).Keys == Kept(rest, m).Keys + last;
      assert z !in Kept(rest, m).Keys;
      assert |Kept(row, m)| == |Kept(row, m).Keys| && |Kept(rest, m)| == |Kept(rest, m).Keys|;
    }
  }

  lemma WithoutLast(row: map<string, real>, rest: map<string, real>, z: string)
    requires z in row && rest == row - {z} && forall y :: y in rest ==> Before(row, y, z)
    ensures |rest| == |row| - 1 && Rank(row, z) == |rest|
    ensures forall x :: x in rest ==> Rank(rest, x) == Rank(row, x)
  {
    hide Less;
    assert rest.Keys == row.Keys - {z};
    forall x | x in row ensures !Before(row, z, x) {
      OneIsBefore(row, x, z);
    }
    forall x | x in rest ensures Rank(rest, x) == Rank(row, x) {
      assert (set y | y in row && Before(row, y, x)) == (set y | y in rest && Before(rest, y, x));
    }
    assert (set y | y in row && Before(row, y, z)) == rest.Keys;
  }

  lemma OneIsBefore(row: map<string, real>, x: string, y: string)
    requires x in row && y in row
    ensures x == y || Before(row, x, y) || Before(row, y, x)
    ensures !(Before(row, x, y) && Before(row, y, x)) && !Before(row, x, x)
  {
    LessTrichotomy(x, y);
  }

  lemma BeforeTransitive(row: map<string, real>, x: string, y: string, z: string)
    requires x in row && y in row && z in row && Before(row, x, y) && Before(row, y, z)
    ensures Before(row, x, z)
  {
    hide Less;
    if row[x] == row[y] == row[z] {
      LessTransitive(x, y, z);
    }
  }

  lemma BeforeRanks(row: map<string, real>, x: string, y: string)
    requires x in row && y in row && Before(row, x, y)
    ensures Rank(row, x) <= Rank(row, y)
  {
    hide Less, Before;
    var a, b := set w | w in row && Before(row, w, x), set w | w in row && Before(row, w, y);
    forall w | w in a ensures w in b {
      BeforeTransitive(row, w, x, y);
    }
    SubsetCard(a, b);
  }

  datatype Edge = Edge(version: string, video: string, neighbor: string)

  const COVIS := "covis-v1"

  function Published(l: Ledger, sqrt: real -> real, p: Params): map<Edge, real>
    requires SquareRoot(sqrt) && ValidParams(p)
  {
    map a, b | a in Videos(l) && b in Videos(l) && b in Kept(Candidates(l, sqrt, p, a), p.topM)
      :: Edge(COVIS, a, b) := Score(l, sqrt, p, a, b)
  }

  // ----- the rebuild, table by table -----

  /** An unordered pair of videos, least id first. */
  datatype Pair = Pair(a: string, b: string)

  function PairOf(a: string, b: string): Pair {
    if Less(a, b) then Pair(a, b) else Pair(b, a)
  }

  function PairVisited(x: Visit): Pair {
    PairOf(if x.anchor.video.Some? then x.anchor.video.value else "", if x.earlier.video.Some? then x.earlier.video.value else "")
  }

  /** A row of watch_pairs or search_pairs. */
  datatype PairRow = PairRow(count: nat, subjects: nat)

  type PairTable = map<Pair, PairRow>

  /** The table holds exactly the visited pairs, each with its visits and the people behind them. */
  ghost predicate PairsOf(t: PairTable, l: Ledger, s: Source, window: real) {
    && (forall p :: p in t ==> p == PairOf(p.a, p.b))
    && forall a, b ::
      && (PairOf(a, b) in t <==> Visits(l, s, window, a, b) != {})
      && (PairOf(a, b) in t ==> t[PairOf(a, b)] == RowOf(Visits(l, s, window, a, b)))
  }

  function RowOf(xs: set<Visit>): PairRow {
    PairRow(|xs|, Subjects(People(xs)))
  }

  function VisitsOf(xs: set<Visit>, p: Pair): set<Visit> {
    set x | x in xs && PairVisited(x) == p
  }

  lemma PairOfCommutes(a: string, b: string, c: string, d: string)
    ensures PairOf(a, b) == PairOf(c, d) <==> (a == c && b == d) || (a == d && b == c)
  {
    LessTrichotomy(a, b);
    LessTrichotomy(c, d);
  }

  lemma VisitsByPair(l: Ledger, s: Source, window: real, a: string, b: string)
    ensures VisitsOf(AllVisits(l, s, window), PairOf(a, b)) == Visits(l, s, window, a, b)
  {
    hide Less, PairOf;
    forall x | x in AllVisits(l, s, window) ensures PairVisited(x) == PairOf(a, b) <==> Joins(x, a, b) {
      assert Paired(x.anchor, x.earlier, s, window);
      PairOfCommutes(x.anchor.video.value, x.earlier.video.value, a, b);
    }
  }

  /** The groups hold the visits done so far by their pair. */
  ghost predicate Grouped(groups: map<Pair, set<Visit>>, done: set<Visit>) {
    forall p :: (p in groups <==> VisitsOf(done, p) != {}) && (p in groups ==> groups[p] == VisitsOf(done, p))
  }

  /** Groups the joined visits by pair and counts each group. */
  method PairCounts(l: Ledger, s: Source, window: real) returns (t: PairTable)
    ensures PairsOf(t, l, s, window)
  {
    hide AllVisits, PairVisited, Grouped, PairsOf;
    var all := AllVisits(l, s, window);
    var groups: map<Pair, set<Visit>> := map[];
    var todo := all;
    NothingGrouped();
    assert all - todo == {};
    while todo != {}
      invariant todo <= all && Grouped(groups, all - todo)
      decreases |todo|
    {
      var x :| x in todo;
      var p := PairVisited(x);
      GroupGrows(groups, all - todo, x);
      assert all - (todo - {x}) == (all - todo) + {x};
      groups := groups[p := (if p in groups then groups[p] else {}) + {x}];
      todo := todo - {x};
    }
    assert all - todo == all;
    t := map p | p in groups :: RowOf(groups[p]);
    GroupsArePairs(groups, t, l, s, window);
  }

  lemma NothingGrouped()
    ensures Grouped(map[], {})
  {
  }

  lemma GroupGrows(groups: map<Pair, set<Visit>>, done: set<Visit>, x: Visit)
    requires Grouped(groups, done)
    ensures var p := PairVisited(x);
            Grouped(groups[p := (if p in groups then groups[p] else {}) + {x}], done + {x})
  {
    hide PairVisited;
    var p := PairVisited(x);
    var grown := groups[p := (if p in groups then groups[p] else {}) + {x}];
    forall k
      ensures (k in grown <==> VisitsOf(done + {x}, k) != {}) && (k in grown ==> grown[k] == VisitsOf(done + {x}, k))
    {
      assert VisitsOf(done + {x}, k) == VisitsOf(done, k) + if k == p then {x} else {};
      assert k == p ==> x in VisitsOf(done + {x}, k);
    }
  }

  lemma GroupsArePairs(groups: map<Pair, set<Visit>>, t: PairTable, l: Ledger, s: Source, window: real)
    requires Grouped(groups, AllVisits(l, s, window))
    requires t == map p | p in groups :: RowOf(groups[p])
    ensures PairsOf(t, l, s, window)
  {
    hide AllVisits, PairOf, PairVisited, RowOf;
    var all := AllVisits(l, s, window);
    forall a, b
      ensures PairOf(a, b) in t <==> Visits(l, s, window, a, b) != {}
      ensures PairOf(a, b) in t ==> t[PairOf(a, b)] == RowOf(Visits(l, s, window, a, b))
    {
      VisitsByPair(l, s, window, a, b);
      hide Visits, VisitsOf;
      assert PairOf(a, b) in groups <==> VisitsOf(all, PairOf(a, b)) != {};
    }
    forall p | p in t ensures p == PairOf(p.a, p.b) {
      var x :| x in VisitsOf(all, p);
      CanonicalPair(x);
    }
  }

  lemma CanonicalPair(x: Visit)
    ensures var p := PairVisited(x); p == PairOf(p.a, p.b)
  {
    LessTrichotomy(PairVisited(x).a, PairVisited(x).b);
  }

  function Get(totals: map<string, nat>, a: string): nat {
    if a in totals then totals[a] else 0
  }

  /** The visits of some pairs that touch a video. */
  function TouchingIn(l: Ledger, s: Source, window: real, pairs: set<Pair>, a: string): set<Visit> {
    set x | x in AllTouching(l, s, window, a) && PairVisited(x) in pairs
  }

  /** Adds every pair's count to both of its videos. */
  method Totals(t: PairTable, l: Ledger, s: Source, window: real) returns (totals: map<string, nat>)
    requires PairsOf(t, l, s, window)
    ensures forall a :: Get(totals, a) == Mass(l, s, window, a)
  {
    hide PairsOf, TouchingIn, Mass;
    totals := map[];
    var todo := t.Keys;
    forall a ensures TouchingIn(l, s, window, t.Keys - todo, a) == {} {
      NoneTouching(l, s, window, a);
      assert t.Keys - todo == {};
    }
    while todo != {}
      invariant todo <= t.Keys
      invariant forall a :: Get(totals, a) == |TouchingIn(l, s, window, t.Keys - todo, a)|
      decreases |todo|
    {
      var p :| p in todo;
      TouchingGrows(t, l, s, window, t.Keys - todo, p);
      assert t.Keys - (todo - {p}) == (t.Keys - todo) + {p};
      totals := totals[p.a := Get(totals, p.a) + t[p].count];
      totals := totals[p.b := Get(totals, p.b) + t[p].count];
      todo := todo - {p};
    }
    assert t.Keys - todo == t.Keys;
    forall a ensures Get(totals, a) == Mass(l, s, window, a) { AllPairsTouch(t, l, s, window, a); }
  }

  lemma NoneTouching(l: Ledger, s: Source, window: real, a: string)
    ensures TouchingIn(l, s, window, {}, a) == {}
  {
  }

  /** The rows are keyed by pairs of different videos, least first. */
  lemma PairKey(t: PairTable, l: Ledger, s: Source, window: real, p: Pair)
    requires PairsOf(t, l, s, window) && p in t && p == PairOf(p.a, p.b)
    ensures p.a != p.b && t[p] == RowOf(Visits(l, s, window, p.a, p.b))
  {
    var x :| x in Visits(l, s, window, p.a, p.b);
    assert Paired(x.anchor, x.earlier, s, window);
  }

  lemma TouchingGrows(t: PairTable, l: Ledger, s: Source, window: real, done: set<Pair>, p: Pair)
    requires PairsOf(t, l, s, window) && p in t && p !in done
    ensures p.a != p.b
    ensures forall a :: |TouchingIn(l, s, window, done + {p}, a)|
                     == |TouchingIn(l, s, window, done, a)| + if a == p.a || a == p.b then t[p].count else 0
  {
    PairKey(t, l, s, window, p);
    VisitsByPair(l, s, window, p.a, p.b);
    forall a
      ensures |TouchingIn(l, s, window, done + {p}, a)|
           == |TouchingIn(l, s, window, done, a)| + if a == p.a || a == p.b then t[p].count else 0
    {
      TouchingSplit(l, s, window, done, p, a);
    }
  }

  lemma TouchingSplit(l: Ledger, s: Source, window: real, done: set<Pair>, p: Pair, a: string)
    requires p !in done && p.a != p.b && p == PairOf(p.a, p.b)
    ensures |TouchingIn(l, s, window, done + {p}, a)|
         == |TouchingIn(l, s, window, done, a)| + if a == p.a || a == p.b then |Visits(l, s, window, p.a, p.b)| else 0
  {
    var before, after := TouchingIn(l, s, window, done, a), TouchingIn(l, s, window, done + {p}, a);
    var own := if a == p.a || a == p.b then Visits(l, s, window, p.a, p.b) else {};
    forall x ensures (x in after <==> x in before || x in own) && !(x in before && x in own) {
      TouchingOne(l, s, window, done, p, a, x);
    }
    hide TouchingIn, Visits;
    assert after == before + own && before !! own;
  }

  lemma TouchingOne(l: Ledger, s: Source, window: real, done: set<Pair>, p: Pair, a: string, x: Visit)
    requires p !in done && p.a != p.b && p == PairOf(p.a, p.b)
    ensures x in TouchingIn(l, s, window, done + {p}, a) <==>
            x in TouchingIn(l, s, window, done, a) || ((a == p.a || a == p.b) && x in Visits(l, s, window, p.a, p.b))
    ensures x in Visits(l, s, window, p.a, p.b) ==> x !in TouchingIn(l, s, window, done, a)
  {
    hide PairOf, AllVisits, PairVisited;
    VisitsByPair(l, s, window, p.a, p.b);
    assert x in VisitsOf(AllVisits(l, s, window), p) <==> x in Visits(l, s, window, p.a, p.b);
  }

  lemma AllPairsTouch(t: PairTable, l: Ledger, s: Source, window: real, a: string)
    requires PairsOf(t, l, s, window)
    ensures TouchingIn(l, s, window, t.Keys, a) == AllTouching(l, s, window, a)
    ensures |TouchingIn(l, s, window, t.Keys, a)| == Mass(l, s, window, a)
  {
    forall x | x in AllTouching(l, s, window, a) ensures PairVisited(x) in t {
      assert Paired(x.anchor, x.earlier, s, window);
      assert x in Visits(l, s, window, x.anchor.video.value, x.earlier.video.value);
    }
  }

  /** A pair's share read off the tables. */
  function TableShare(sqrt: real -> real, t: PairTable, totals: map<string, nat>, p: Params, a: string, b: string): real
    requires SquareRoot(sqrt) && ValidParams(p)
  {
    var pair := PairOf(a, b);
    if pair in t && t[pair].subjects >= p.floor
    then ShrunkCosine(sqrt, t[pair].count, Get(totals, a), Get(totals, b), p.lambda)
    else 0.0
  }

  lemma TableShareIsShare(l: Ledger, sqrt: real -> real, s: Source, p: Params, t: PairTable, totals: map<string, nat>, a: string, b: string)
    requires SquareRoot(sqrt) && ValidParams(p) && PairsOf(t, l, s, p.window)
    requires forall v :: Get(totals, v) == Mass(l, s, p.window, v)
    ensures TableShare(sqrt, t, totals, p, a, b) == Share(l, sqrt, s, p, a, b)
  {
    hide Visits, PairOf, ShrunkCosine, Subjects;
  }

  class NeighborIndex {
    var rows: map<Edge, real>

    method Clear()
      modifies this
      ensures forall e: Edge :: e in rows <==> e in old(rows) && e.version != COVIS
      ensures forall e: Edge :: e in rows ==> rows[e] == old(rows)[e]
    {
      rows := map e | e in rows && e.version != COVIS :: rows[e];
    }

    /** A rebuild forgets the old index. Pair counts, totals, scored edges and the row-number cut, each table
        computed from the one before, leave exactly the rows the ledger supports; rows of other model versions
        are as they were. */
    method Rebuild(l: Ledger, sqrt: real -> real, p: Params)
      requires SquareRoot(sqrt) && ValidParams(p)
      modifies this
      ensures forall e: Edge :: e.version == COVIS ==>
        (e in rows <==> e in Published(l, sqrt, p)) && (e in rows ==> rows[e] == Published(l, sqrt, p)[e])
      ensures forall e: Edge :: e.version != COVIS ==>
        (e in rows <==> e in old(rows)) && (e in rows ==> rows[e] == old(rows)[e])
    {
      Clear();
      ghost var others := rows;
      var watch := PairCounts(l, Watch, p.window);
      var search := PairCounts(l, Search, p.window);
      var watchTotals := Totals(watch, l, Watch, p.window);
      var searchTotals := Totals(search, l, Search, p.window);
      hide PairsOf, Mass, TableShare, Share, Kept, Published, Rebuilt;
      var todo := Videos(l);
      NothingRebuilt(others, l, sqrt, p);
      while todo != {}
        invariant todo <= Videos(l) && Rebuilt(rows, others, l, sqrt, p, todo)
        decreases |todo|
      {
        var a :| a in todo;
        ScoredRow(l, sqrt, p, watch, watchTotals, search, searchTotals, a);
        var edges := TableRow(l, sqrt, p, watch, watchTotals, search, searchTotals, a);
        var best := Kept(edges, p.topM);
        RowRebuilt(rows, others, l, sqrt, p, todo, a);
        rows := rows + EdgesFrom(a, best);
        todo := todo - {a};
      }
      AllRebuilt(rows, others, l, sqrt, p);
    }
  }

  /** The scored edges of one video, its shares read off the tables. */
  function TableRow(l: Ledger, sqrt: real -> real, p: Params, watch: PairTable, watchTotals: map<string, nat>,
                    search: PairTable, searchTotals: map<string, nat>, a: string): map<string, real>
    requires SquareRoot(sqrt) && ValidParams(p)
  {
    map b | b in Videos(l) && TableScore(sqrt, p, watch, watchTotals, search, searchTotals, a, b) > 0.0
      :: TableScore(sqrt, p, watch, watchTotals, search, searchTotals, a, b)
  }

  function TableScore(sqrt: real -> real, p: Params, watch: PairTable, watchTotals: map<string, nat>,
                      search: PairTable, searchTotals: map<string, nat>, a: string, b: string): real
    requires SquareRoot(sqrt) && ValidParams(p)
  {
    0.7 * TableShare(sqrt, watch, watchTotals, p, a, b) + 0.3 * TableShare(sqrt, search, searchTotals, p, a, b)
  }

  lemma ScoredRow(l: Ledger, sqrt: real -> real, p: Params, watch: PairTable, watchTotals: map<string, nat>,
                  search: PairTable, searchTotals: map<string, nat>, a: string)
    requires SquareRoot(sqrt) && ValidParams(p)
    requires PairsOf(watch, l, Watch, p.window) && PairsOf(search, l, Search, p.window)
    requires forall v :: Get(watchTotals, v) == Mass(l, Watch, p.window, v)
    requires forall v :: Get(searchTotals, v) == Mass(l, Search, p.window, v)
    ensures TableRow(l, sqrt, p, watch, watchTotals, search, searchTotals, a) == Candidates(l, sqrt, p, a)
  {
    hide PairsOf, Mass, TableShare, Share;
    forall b ensures TableScore(sqrt, p, watch, watchTotals, search, searchTotals, a, b) == Score(l, sqrt, p, a, b) {
      TableShareIsShare(l, sqrt, Watch, p, watch, watchTotals, a, b);
      TableShareIsShare(l, sqrt, Search, p, search, searchTotals, a, b);
    }
  }

  function EdgesFrom(a: string, best: map<string, real>): map<Edge, real> {
    map b | b in best :: Edge(COVIS, a, b) := best[b]
  }

  /** The rows are the published ones of every video not in todo, beside the others. */
  ghost predicate Rebuilt(rows: map<Edge, real>, others: map<Edge, real>, l: Ledger, sqrt: real -> real, p: Params, todo: set<string>)
    requires SquareRoot(sqrt) && ValidParams(p)
  {
    var published := Published(l, sqrt, p);
    forall e: Edge ::
      && (e in rows <==> if e.version == COVIS then e in published && e.video !in todo else e in others)
      && (e in rows ==> rows[e] == if e.version == COVIS && e in published then published[e] else if e in others then others[e] else 0.0)
  }

  lemma NothingRebuilt(others: map<Edge, real>, l: Ledger, sqrt: real -> real, p: Params)
    requires SquareRoot(sqrt) && ValidParams(p) && forall e: Edge :: e in others ==> e.version != COVIS
    ensures Rebuilt(others, others, l, sqrt, p, Videos(l))
  {
    forall e: Edge | e in Published(l, sqrt, p) ensures e.video in Videos(l) { PublishedRow(l, sqrt, p, e); }
  }

  lemma PublishedRow(l: Ledger, sqrt: real -> real, p: Params, e: Edge)
    requires SquareRoot(sqrt) && ValidParams(p)
    ensures e in Published(l, sqrt, p) <==>
            e.version == COVIS && e.video in Videos(l) && e.neighbor in Kept(Candidates(l, sqrt, p, e.video), p.topM)
    ensures e in Published(l, sqrt, p) ==>
            Published(l, sqrt, p)[e] == Kept(Candidates(l, sqrt, p, e.video), p.topM)[e.neighbor]
  {
    hide Score;
    KeptRows(Candidates(l, sqrt, p, e.video), p.topM);
    hide Kept;
  }

  lemma RowRebuilt(rows: map<Edge, real>, others: map<Edge, real>, l: Ledger, sqrt: real -> real, p: Params, todo: set<string>, a: string)
    requires SquareRoot(sqrt) && ValidParams(p) && a in todo && todo <= Videos(l)
    requires Rebuilt(rows, others, l, sqrt, p, todo)
    ensures Rebuilt(rows + EdgesFrom(a, Kept(Candidates(l, sqrt, p, a), p.topM)), others, l, sqrt, p, todo - {a})
  {
    hide Published, Candidates, Kept;
    var edges := EdgesFrom(a, Kept(Candidates(l, sqrt, p, a), p.topM));
    forall e: Edge
      ensures e in edges <==> e.video == a && e in Published(l, sqrt, p)
      ensures e in edges ==> edges[e] == Published(l, sqrt, p)[e] && e.version == COVIS
    {
      PublishedRow(l, sqrt, p, e);
    }
  }

  lemma AllRebuilt(rows: map<Edge, real>, others: map<Edge, real>, l: Ledger, sqrt: real -> real, p: Params)
    requires SquareRoot(sqrt) && ValidParams(p) && Rebuilt(rows, others, l, sqrt, p, {})
    ensures forall e: Edge :: e.version == COVIS ==>
      (e in rows <==> e in Published(l, sqrt, p)) && (e in rows ==> rows[e] == Published(l, sqrt, p)[e])
    ensures forall e: Edge :: e.version != COVIS ==>
      (e in rows <==> e in others) && (e in rows ==> rows[e] == others[e])
  {
    hide Published;
  }

  lemma KeptRows(row: map<string, real>, m: nat)
    ensures forall x :: x in Kept(row, m) ==> x in row && Kept(row, m)[x] == row[x]
  {
  }

  /** A published neighbor has the floor's subjects behind it in some source, and in every ledger the
      retained one was cut from. */
  lemma PublishedHasSupport(l: Ledger, full: Ledger, sqrt: real -> real, p: Params, e: Edge)
    requires SquareRoot(sqrt) && ValidParams(p) && e in Published(l, sqrt, p) && l <= full
    ensures exists s: Source ::
      && Subjects(People(Visits(l, s, p.window, e.video, e.neighbor))) >= p.floor
      && ClearsFloor(full, s, p.window, p.floor, e.video, e.neighbor)
    ensures e.video != e.neighbor && 0.0 < Published(l, sqrt, p)[e] <= 1.0
  {
    var a, b := e.video, e.neighbor;
    assert Published(l, sqrt, p)[e] == Score(l, sqrt, p, a, b) > 0.0;
    ScoreRange(l, sqrt, p, a, b);
    hide Published, Score;
    var s := if ClearsFloor(l, Watch, p.window, p.floor, a, b) then Watch else Search;
    assert ClearsFloor(l, s, p.window, p.floor, a, b);
    ClearedPair(l, s, p.window, p.floor, a, b);
    DeletionNeverPublishes(full, l, s, p.window, p.floor, a, b);
    hide ClearsFloor, Visits;
  }

  lemma ClearedPair(l: Ledger, s: Source, window: real, floor: int, a: string, b: string)
    requires ClearsFloor(l, s, window, floor, a, b)
    ensures a != b && Subjects(People(Visits(l, s, window, a, b))) >= floor
  {
    var x :| x in Visits(l, s, window, a, b);
    assert Paired(x.anchor, x.earlier, s, window);
  }
}
