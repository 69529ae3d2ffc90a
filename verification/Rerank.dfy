/** The advanced reranker: set-normalize, score, sort, demote repeated creators, sort again. */
module Rerank {
  import opened Sorting
  import opened TextOrder

  type Tally = x: real | 0.0 <= x witness 0.0

  datatype Features = Features(
    textRank: real, trgmSim: real, exactFlags: real, views: real, ageDays: real,
    impressions: Tally, clicks: Tally, meaningfulWatches: Tally,
    personalAffinity: real, channelAffinity: real, sessionIntent: real, languageMatch: bool)

  datatype Doc = Doc(videoId: string, channelId: string, features: Features)

  datatype Scored = Scored(doc: Doc, score: real)

  datatype Ranked = Ranked(videoId: string, score: real)

  datatype Maxima = Maxima(affinity: real, channel: real, session: real)

  // ----- specification -----

  function Max(a: real, b: real): real {
    if a < b then b else a
  }

  function MaximaOf(docs: seq<Doc>): Maxima {
    if docs == [] then Maxima(0.0, 0.0, 0.0)
    else
      var m, f := MaximaOf(docs[..|docs| - 1]), docs[|docs| - 1].features;
      Maxima(Max(m.affinity, f.personalAffinity), Max(m.channel, f.channelAffinity), Max(m.session, f.sessionIntent))
  }

  function Norm(v: real, max: real): real {
    if max > 0.0 then v / max else 0.0
  }

  function Normalized(f: Features, m: Maxima): Features {
    f.(personalAffinity := Norm(f.personalAffinity, m.affinity),
       channelAffinity := Norm(f.channelAffinity, m.channel),
       sessionIntent := Norm(f.sessionIntent, m.session))
  }

  function ScoreOne(scorer: Features -> real, m: Maxima): Doc -> Scored {
    (d: Doc) => Scored(d, scorer(Normalized(d.features, m)))
  }

  /** Higher score first; ids break ties. */
  predicate Before(a: Scored, b: Scored) {
    if a.score != b.score then a.score > b.score else Less(a.doc.videoId, b.doc.videoId)
  }

  function Count(s: seq<Scored>, channel: string): nat {
    if s == [] then 0
    else Count(s[..|s| - 1], channel) + if s[|s| - 1].doc.channelId == channel then 1 else 0
  }

  /** How far beyond its channel's second result a result stands. */
  function Extra(s: seq<Scored>, i: nat): nat
    requires i < |s|
  {
    var n := Count(s[..i + 1], s[i].doc.channelId);
    if s[i].doc.channelId == "" || n <= 2 then 0 else n - 2
  }

  function Penalized(s: seq<Scored>, penalty: real): (r: seq<Scored>)
    ensures |r| == |s|
  {
    seq(|s|, i requires 0 <= i < |s| => s[i].(score := s[i].score - penalty * (Extra(s, i) as real)))
  }

  function Order(docs: seq<Doc>, scorer: Features -> real): seq<Scored> {
    SortBy(Before, Map(ScoreOne(scorer, MaximaOf(docs)), docs))
  }

  function Final(docs: seq<Doc>, scorer: Features -> real, penalty: real): seq<Scored> {
    var s := Order(docs, scorer);
    if penalty > 0.0 then SortBy(Before, Penalized(s, penalty)) else s
  }

  function Result(s: Scored): Ranked {
    Ranked(s.doc.videoId, s.score)
  }

  // ----- the pipeline -----

  method RerankWith(docs: seq<Doc>, scorer: Features -> real, penalty: real) returns (out: seq<Ranked>)
    ensures out == Map(Result, Final(docs, scorer, penalty))
  {
    if docs == [] {
      return [];
    }
    var maxAff, maxChan, maxSess := 0.0, 0.0, 0.0;
    var n := 0;
    while n < |docs|
      invariant 0 <= n <= |docs| && Maxima(maxAff, maxChan, maxSess) == MaximaOf(docs[..n])
    {
      assert docs[..n + 1][..n] == docs[..n];
      var f := docs[n].features;
      maxAff, maxChan, maxSess := Max(maxAff, f.personalAffinity), Max(maxChan, f.channelAffinity), Max(maxSess, f.sessionIntent);
      n := n + 1;
    }
    assert docs[..n] == docs;
    var m := Maxima(maxAff, maxChan, maxSess);
    var items: seq<Scored> := [];
    n := 0;
    while n < |docs|
      invariant 0 <= n <= |docs| && |items| == n
      invariant forall i :: 0 <= i < n ==> items[i] == ScoreOne(scorer, m)(docs[i])
    {
      items := items + [Scored(docs[n], scorer(Normalized(docs[n].features, m)))];
      n := n + 1;
    }
    assert items == Map(ScoreOne(scorer, m), docs);
    items := SortBy(Before, items);
    if penalty > 0.0 {
      items := Penalize(items, penalty);
      items := SortBy(Before, items);
    }
    out := [];
    n := 0;
    while n < |items|
      invariant 0 <= n <= |items| && |out| == n
      invariant forall i :: 0 <= i < n ==> out[i] == Result(items[i])
    {
      out := out + [Ranked(items[n].doc.videoId, items[n].score)];
      n := n + 1;
    }
  }

  method Penalize(s: seq<Scored>, penalty: real) returns (items: seq<Scored>)
    ensures items == Penalized(s, penalty)
  {
    items := s;
    var perChan: map<string, nat> := map[];
    var i := 0;
    while i < |items|
      invariant 0 <= i <= |items| == |s|
      invariant forall j :: 0 <= j < i ==> items[j] == Penalized(s, penalty)[j]
      invariant forall j :: i <= j < |s| ==> items[j] == s[j]
      invariant forall c :: c != "" ==> Count(s[..i], c) == if c in perChan then perChan[c] else 0
    {
      var ch := items[i].doc.channelId;
      forall c { CountNext(s, i, c); }
      if ch != "" {
        var n := (if ch in perChan then perChan[ch] else 0) + 1;
        perChan := perChan[ch := n];
        if n > 2 {
          items := items[i := items[i].(score := items[i].score - penalty * ((n - 2) as real))];
        }
      }
      assert items[i] == Penalized(s, penalty)[i];
      i := i + 1;
    }
  }

  // ----- order and permutation -----

  lemma BeforeIsWeak()
    ensures StrictWeak(Before)
  {
    forall a, b | Before(a, b) ensures !Before(b, a) {
      LessTrichotomy(a.doc.videoId, b.doc.videoId);
    }
    forall a, b, c | Before(a, b) && !Before(c, b) ensures Before(a, c) {
      BeforeChains(a, b, c);
    }
  }

  lemma BeforeChains(a: Scored, b: Scored, c: Scored)
    requires Before(a, b) && !Before(c, b)
    ensures Before(a, c)
  {
    hide Less;
    LessTrichotomy(c.doc.videoId, b.doc.videoId);
    if a.score == b.score == c.score && b.doc.videoId != c.doc.videoId {
      LessTransitive(a.doc.videoId, b.doc.videoId, c.doc.videoId);
    }
  }

  function VideoOf(d: Doc): string {
    d.videoId
  }

  function IdOf(s: Scored): string {
    s.doc.videoId
  }

  function DocOf(s: Scored): Doc {
    s.doc
  }

  function RankedId(r: Ranked): string {
    r.videoId
  }

  lemma MapMap<T, U, V>(f: T -> U, g: U -> V, h: T -> V, s: seq<T>)
    requires forall x :: x in s ==> h(x) == g(f(x))
    ensures Map(g, Map(f, s)) == Map(h, s)
  {
  }

  /** The result is a permutation of the input documents, sorted by score, ids breaking ties. */
  lemma FinalIsSortedPermutation(docs: seq<Doc>, scorer: Features -> real, penalty: real)
    ensures Sorted(Before, Final(docs, scorer, penalty))
    ensures multiset(Map(DocOf, Final(docs, scorer, penalty))) == multiset(docs)
  {
    BeforeIsWeak();
    var score := ScoreOne(scorer, MaximaOf(docs));
    var items, s := Map(score, docs), Order(docs, scorer);
    SortFacts(Before, items);
    MapPermutes(DocOf, s, items);
    assert Map(DocOf, items) == docs;
    if penalty > 0.0 {
      SortFacts(Before, Penalized(s, penalty));
      MapPermutes(DocOf, SortBy(Before, Penalized(s, penalty)), Penalized(s, penalty));
      assert Map(DocOf, Penalized(s, penalty)) == Map(DocOf, s);
    }
  }

  /** The served ids are the given ids. */
  lemma ResultPermutesIds(docs: seq<Doc>, scorer: Features -> real, penalty: real)
    ensures var out := Map(Result, Final(docs, scorer, penalty));
            && multiset(Map(RankedId, out)) == multiset(Map(VideoOf, docs))
            && forall i, j :: 0 <= i < j < |out| ==>
                 out[i].score > out[j].score || (out[i].score == out[j].score && !Less(out[j].videoId, out[i].videoId))
  {
    var final := Final(docs, scorer, penalty);
    FinalIsSortedPermutation(docs, scorer, penalty);
    MapPermutes(VideoOf, Map(DocOf, final), docs);
    MapMap(DocOf, VideoOf, IdOf, final);
    MapMap(Result, RankedId, IdOf, final);
    forall i, j | 0 <= i < j < |final| ensures !Before(final[j], final[i]) {
      SortedAt(Before, final, i, j);
    }
  }

  // ----- independence of the input order -----

  predicate DistinctIds(docs: seq<Doc>) {
    forall i, j :: 0 <= i < j < |docs| ==> docs[i].videoId != docs[j].videoId
  }

  predicate NoLarger(f: Features, m: Maxima) {
    f.personalAffinity <= m.affinity && f.channelAffinity <= m.channel && f.sessionIntent <= m.session
  }

  predicate LargestOf(m: Maxima, docs: seq<Doc>) {
    && m.affinity >= 0.0 && m.channel >= 0.0 && m.session >= 0.0
    && (forall d :: d in docs ==> NoLarger(d.features, m))
    && (m.affinity == 0.0 || exists d :: d in docs && d.features.personalAffinity == m.affinity)
    && (m.channel == 0.0 || exists d :: d in docs && d.features.channelAffinity == m.channel)
    && (m.session == 0.0 || exists d :: d in docs && d.features.sessionIntent == m.session)
  }

  lemma {:induction false} MaximaAreLargest(docs: seq<Doc>)
    ensures LargestOf(MaximaOf(docs), docs)
  {
    if docs != [] {
      var init, last := docs[..|docs| - 1], docs[|docs| - 1];
      MaximaAreLargest(init);
      assert docs == init + [last];
      assert forall d :: d in init ==> d in docs;
      assert last in docs;
    }
  }

  /** Across the candidate set every signal is scaled to at most 1, and a non-negative one into [0, 1]. */
  lemma NormalizedRange(docs: seq<Doc>, d: Doc)
    requires d in docs
    ensures var f, g := d.features, Normalized(d.features, MaximaOf(docs));
            && g.personalAffinity <= 1.0 && (f.personalAffinity >= 0.0 ==> g.personalAffinity >= 0.0)
            && g.channelAffinity <= 1.0 && (f.channelAffinity >= 0.0 ==> g.channelAffinity >= 0.0)
            && g.sessionIntent <= 1.0 && (f.sessionIntent >= 0.0 ==> g.sessionIntent >= 0.0)
  {
    MaximaAreLargest(docs);
    var f, m := d.features, MaximaOf(docs);
    NormRange(f.personalAffinity, m.affinity);
    NormRange(f.channelAffinity, m.channel);
    NormRange(f.sessionIntent, m.session);
  }

  lemma NormRange(v: real, max: real)
    requires v <= max && max >= 0.0
    ensures Norm(v, max) <= 1.0 && (v >= 0.0 ==> Norm(v, max) >= 0.0)
  {
    if max > 0.0 {
      assert v == (v / max) * max;
    }
  }

  lemma LargestUnique(a: Maxima, b: Maxima, x: seq<Doc>, y: seq<Doc>)
    requires LargestOf(a, x) && LargestOf(b, y) && forall d :: d in x <==> d in y
    ensures a == b
  {
  }

  lemma DistinctIdsSeparate(docs: seq<Doc>, f: Doc -> Scored)
    requires DistinctIds(docs) && forall d :: d in docs ==> f(d).doc == d
    ensures Separates(Before, Map(f, docs))
  {
    var s := Map(f, docs);
    forall a, b | a in s && b in s && a != b ensures Before(a, b) || Before(b, a) {
      var i :| 0 <= i < |docs| && a == f(docs[i]);
      var j :| 0 <= j < |docs| && b == f(docs[j]);
      LessTrichotomy(a.doc.videoId, b.doc.videoId);
    }
  }

  /** With distinct ids the result does not depend on the order the candidates arrive in. */
  lemma InputOrderIrrelevant(a: seq<Doc>, b: seq<Doc>, scorer: Features -> real, penalty: real)
    requires DistinctIds(a) && multiset(a) == multiset(b)
    ensures Final(a, scorer, penalty) == Final(b, scorer, penalty)
  {
    SameElements(a, b);
    MaximaAreLargest(a);
    MaximaAreLargest(b);
    LargestUnique(MaximaOf(a), MaximaOf(b), a, b);
    var f := ScoreOne(scorer, MaximaOf(a));
    MapPermutes(f, a, b);
    BeforeIsWeak();
    DistinctIdsSeparate(a, f);
    SortOfPermutation(Before, Map(f, a), Map(f, b));
  }

  // ----- what the penalty cannot do -----

  lemma {:induction false} CountGrows(s: seq<Scored>, i: nat, j: nat, channel: string)
    requires i <= j <= |s|
    ensures Count(s[..i], channel) <= Count(s[..j], channel)
  {
    if i < j {
      assert s[..j][..j - 1] == s[..j - 1];
      CountGrows(s, i, j - 1, channel);
    }
  }

  lemma ExtraGrows(s: seq<Scored>, i: nat, j: nat)
    requires i < j < |s| && s[i].doc.channelId == s[j].doc.channelId
    ensures Extra(s, i) <= Extra(s, j)
  {
    CountGrows(s, i + 1, j + 1, s[i].doc.channelId);
  }

  /** Two results of one channel: the later is demoted at least as far, so it cannot overtake. */
  lemma SameChannelKeepsOrder(s: seq<Scored>, penalty: real, i: nat, j: nat)
    requires penalty > 0.0 && i < j < |s| && !Before(s[j], s[i])
    requires s[i].doc.channelId == s[j].doc.channelId != ""
    ensures !Before(Penalized(s, penalty)[j], Penalized(s, penalty)[i])
  {
    hide Extra, Before;
    ExtraGrows(s, i, j);
    var x, y := penalty * (Extra(s, i) as real), penalty * (Extra(s, j) as real);
    assert x <= y by { Grows(Extra(s, i) as real, Extra(s, j) as real, penalty); }
    assert Penalized(s, penalty)[i] == s[i].(score := s[i].score - x);
    assert Penalized(s, penalty)[j] == s[j].(score := s[j].score - y);
    DemotedInOrder(s[i], s[j], x, y);
  }

  lemma DemotedInOrder(a: Scored, b: Scored, x: real, y: real)
    requires !Before(b, a) && x <= y
    ensures !Before(b.(score := b.score - y), a.(score := a.score - x))
  {
    hide Less;
  }

  lemma Grows(x: real, y: real, f: real)
    requires x <= y && f > 0.0
    ensures f * x <= f * y
  {
    assert f * (y - x) >= 0.0;
  }

  /** For each final place, the place in the pre-penalty order it is taken from. */
  function FinalPlaces(s: seq<Scored>, penalty: real): seq<nat> {
    if penalty > 0.0 then Places(Before, Penalized(s, penalty)) else Indices(0, |s|)
  }

  lemma FinalPlacesFacts(docs: seq<Doc>, scorer: Features -> real, penalty: real)
    ensures var s, p := Order(docs, scorer), FinalPlaces(Order(docs, scorer), penalty);
            && |p| == |s| && Within(s, p) && (forall i :: i in p <==> 0 <= i < |s|)
            && Map(DocOf, Final(docs, scorer, penalty)) == Map(DocOf, Pick(s, p))
  {
    BeforeIsWeak();
    var s := Order(docs, scorer);
    if penalty > 0.0 {
      PlacesFacts(Before, Penalized(s, penalty));
    } else {
      assert Pick(s, Indices(0, |s|)) == s;
      forall i | 0 <= i < |s| ensures i in Indices(0, |s|) { assert Indices(0, |s|)[i] == i; }
    }
  }

  /** The final ranking takes each document of the pre-penalty order once, and never swaps two of one channel,
      not even repetitions of one document. */
  lemma ChannelOrderSurvives(docs: seq<Doc>, scorer: Features -> real, penalty: real, i: nat, j: nat)
    requires i < j < |Order(docs, scorer)|
    requires Order(docs, scorer)[i].doc.channelId == Order(docs, scorer)[j].doc.channelId != ""
    ensures var s, p := Order(docs, scorer), FinalPlaces(Order(docs, scorer), penalty);
            && |p| == |s| && Within(s, p) && (forall n :: n in p <==> 0 <= n < |s|)
            && Map(DocOf, Final(docs, scorer, penalty)) == Map(DocOf, Pick(s, p))
            && exists x, y :: 0 <= x < y < |p| && p[x] == i && p[y] == j
  {
    FinalPlacesFacts(docs, scorer, penalty);
    SameChannelPlaces(docs, scorer, penalty, i, j);
    hide Final, FinalPlaces, Order;
  }

  lemma SameChannelPlaces(docs: seq<Doc>, scorer: Features -> real, penalty: real, i: nat, j: nat)
    requires i < j < |Order(docs, scorer)|
    requires Order(docs, scorer)[i].doc.channelId == Order(docs, scorer)[j].doc.channelId != ""
    ensures var p := FinalPlaces(Order(docs, scorer), penalty);
            exists x, y :: 0 <= x < y < |p| && p[x] == i && p[y] == j
  {
    var s := Order(docs, scorer);
    BeforeIsWeak();
    if penalty > 0.0 {
      FinalIsSortedPermutation(docs, scorer, 0.0);
      SortedAt(Before, s, i, j);
      SameChannelKeepsOrder(s, penalty, i, j);
      var x, y := KeepsPlace(Before, Penalized(s, penalty), i, j);
      assert FinalPlaces(s, penalty)[x] == i && FinalPlaces(s, penalty)[y] == j;
    } else {
      var p := FinalPlaces(s, penalty);
      assert p[i] == i && p[j] == j;
    }
  }

  lemma OrderIdsDiffer(docs: seq<Doc>, scorer: Features -> real, i: nat, j: nat)
    requires DistinctIds(docs) && i < j < |Order(docs, scorer)|
    ensures IdOf(Order(docs, scorer)[i]) != IdOf(Order(docs, scorer)[j])
  {
    var s := Order(docs, scorer);
    FinalIsSortedPermutation(docs, scorer, 0.0);
    MapPermutes(VideoOf, Map(DocOf, s), docs);
    MapMap(DocOf, VideoOf, IdOf, s);
    DistinctStays(Map(IdOf, s), Map(VideoOf, docs), i, j);
  }

  lemma DistinctStays(a: seq<string>, b: seq<string>, i: nat, j: nat)
    requires multiset(a) == multiset(b) && NoDup(b) && i < j < |a|
    ensures a[i] != a[j]
  {
    if a[i] == a[j] {
      var x := a[i];
      assert a == a[..i] + [a[i]] + a[i + 1..j] + [a[j]] + a[j + 1..];
      assert multiset(a)[x] >= 2;
      NoDupCounts(b, x);
    }
  }

  lemma {:induction false} NoDupCounts(b: seq<string>, x: string)
    requires NoDup(b)
    ensures multiset(b)[x] <= 1
  {
    if b != [] {
      var init, last := b[..|b| - 1], b[|b| - 1];
      assert b == init + [last];
      NoDupCounts(init, x);
      if x == last {
        assert x !in init;
      }
    }
  }

  /** What result i is demoted less than its predecessor stays under their gap in score; at the exact gap
      the ids are in order. */
  predicate GapHolds(s: seq<Scored>, penalty: real, i: nat)
    requires 0 < i < |s|
  {
    var gap := s[i - 1].score - s[i].score;
    var gain := penalty * (Extra(s, i - 1) as real) - penalty * (Extra(s, i) as real);
    gain < gap || (gain == gap && !Less(IdOf(s[i]), IdOf(s[i - 1])))
  }

  predicate GapsHold(s: seq<Scored>, penalty: real) {
    forall i :: 0 < i < |s| ==> GapHolds(s, penalty, i)
  }

  lemma GapsAreOrder(s: seq<Scored>, penalty: real)
    ensures GapsHold(s, penalty) <==> InOrder(Before, Penalized(s, penalty))
  {
    hide Before, GapHolds, Penalized;
    var p := Penalized(s, penalty);
    forall i | 0 < i < |s| ensures GapHolds(s, penalty, i) <==> !Before(p[i], p[i - 1]) {
      GapIsOrder(s, penalty, i);
    }
    if GapsHold(s, penalty) {
      forall i | 0 < i < |p| ensures !Before(p[i], p[i - 1]) { assert GapHolds(s, penalty, i); }
    }
    if InOrder(Before, p) {
      forall i | 0 < i < |s| ensures GapHolds(s, penalty, i) { assert !Before(p[i], p[i - 1]); }
    }
  }

  lemma GapIsOrder(s: seq<Scored>, penalty: real, i: nat)
    requires 0 < i < |s|
    ensures GapHolds(s, penalty, i) <==> !Before(Penalized(s, penalty)[i], Penalized(s, penalty)[i - 1])
  {
    hide Extra, Less;
    var x, y := penalty * (Extra(s, i - 1) as real), penalty * (Extra(s, i) as real);
    assert Penalized(s, penalty)[i - 1] == s[i - 1].(score := s[i - 1].score - x);
    assert Penalized(s, penalty)[i] == s[i].(score := s[i].score - y);
  }

  /** The penalty moves no result exactly when every gap holds; with distinct ids that is also exactly when
      the served ids come in the pre-penalty order. */
  lemma PenaltyKeepsOrderIff(docs: seq<Doc>, scorer: Features -> real, penalty: real)
    requires penalty > 0.0
    ensures var s := Order(docs, scorer);
            && (FinalPlaces(s, penalty) == Indices(0, |s|) <==> GapsHold(s, penalty))
            && (DistinctIds(docs) ==>
                 (Map(IdOf, Final(docs, scorer, penalty)) == Map(IdOf, s) <==> GapsHold(s, penalty)))
  {
    var s := Order(docs, scorer);
    BeforeIsWeak();
    PlacesUnchangedIff(Before, Penalized(s, penalty));
    GapsAreOrder(s, penalty);
    if DistinctIds(docs) {
      IdOrderIff(docs, scorer, penalty);
    }
  }

  lemma IdOrderIff(docs: seq<Doc>, scorer: Features -> real, penalty: real)
    requires DistinctIds(docs) && penalty > 0.0
    ensures var s := Order(docs, scorer);
            Map(IdOf, Final(docs, scorer, penalty)) == Map(IdOf, s) <==> InOrder(Before, Penalized(s, penalty))
  {
    hide Less, DistinctIds, Penalized, Before;
    var s := Order(docs, scorer);
    var p := Penalized(s, penalty);
    BeforeIsWeak();
    SortFacts(Before, p);
    assert Map(IdOf, p) == Map(IdOf, s) by { PenaltyKeepsIds(s, penalty); }
    if InOrder(Before, p) {
      AdjacentSorted(Before, p);
      SortedIsFixed(Before, p);
    }
    if Map(IdOf, Final(docs, scorer, penalty)) == Map(IdOf, s) {
      SameIdsSamePlaces(docs, scorer, Final(docs, scorer, penalty), p);
      forall i | 0 < i < |p| ensures !Before(p[i], p[i - 1]) {
        SortedAt(Before, p, i - 1, i);
      }
    }
  }

  lemma PenaltyKeepsIds(s: seq<Scored>, penalty: real)
    ensures Map(IdOf, Penalized(s, penalty)) == Map(IdOf, s)
  {
  }

  /** A permutation of p with p's ids in p's places is p. */
  lemma SameIdsSamePlaces(docs: seq<Doc>, scorer: Features -> real, t: seq<Scored>, p: seq<Scored>)
    requires DistinctIds(docs) && multiset(t) == multiset(p) && Map(IdOf, p) == Map(IdOf, Order(docs, scorer)) == Map(IdOf, t)
    ensures t == p
  {
    SameElements(t, p);
    forall i | 0 <= i < |t| ensures t[i] == p[i] {
      assert t[i] in p;
      var j :| 0 <= j < |p| && p[j] == t[i];
      assert Map(IdOf, p)[i] == Map(IdOf, t)[i] == IdOf(p[j]) == Map(IdOf, p)[j];
      var s := Order(docs, scorer);
      assert IdOf(s[i]) == Map(IdOf, s)[i] && IdOf(s[j]) == Map(IdOf, s)[j];
      if i != j {
        OrderIdsDiffer(docs, scorer, if i < j then i else j, if i < j then j else i);
      }
    }
  }

  // ----- the heuristic scorer against the simple one -----

  /** The text, views and freshness score, whatever its formula. */
  type Simple = (real, real, real, real, real) -> real

  datatype Weights = Weights(
    ctr: real, meaningfulRate: real, affinity: real, channel: real, session: real, language: real, creatorPenalty: real)

  const ALPHA := 1.0
  const BETA := 9.0
  const MW_BETA := 5.0

  function SmoothedCtr(clicks: Tally, impressions: Tally): real {
    (clicks + ALPHA) / (impressions + ALPHA + BETA)
  }

  function CtrPrior(): real {
    ALPHA / (ALPHA + BETA)
  }

  function MeaningfulRate(meaningful: Tally, clicks: Tally): real {
    if meaningful <= 0.0 then 0.0 else meaningful / (clicks + MW_BETA)
  }

  function BaseScore(simple: Simple, f: Features): real {
    simple(f.textRank, f.trgmSim, f.exactFlags, f.views, f.ageDays)
  }

  /** Prior-centred click-through and meaningful-watch rate. */
  function Engagement(w: Weights, clicks: Tally, impressions: Tally, meaningful: Tally): real {
    w.ctr * (SmoothedCtr(clicks, impressions) - CtrPrior()) + w.meaningfulRate * MeaningfulRate(meaningful, clicks)
  }

  function ScoreWith(simple: Simple, w: Weights): Features -> real {
    (f: Features) =>
      BaseScore(simple, f) + Engagement(w, f.clicks, f.impressions, f.meaningfulWatches)
      + w.affinity * f.personalAffinity + w.channel * f.channelAffinity + w.session * f.sessionIntent
      + if f.languageMatch then w.language else 0.0
  }

  /** No engagement, no personalization, no language match. */
  predicate Baseline(f: Features) {
    && f.impressions == f.clicks == f.meaningfulWatches == 0.0
    && f.personalAffinity == f.channelAffinity == f.sessionIntent == 0.0 && !f.languageMatch
  }

  function SimpleScored(simple: Simple): Doc -> Scored {
    (d: Doc) => Scored(d, BaseScore(simple, d.features))
  }

  function SimpleOrder(docs: seq<Doc>, simple: Simple): seq<Scored> {
    SortBy(Before, Map(SimpleScored(simple), docs))
  }

  function ChannelOf(d: Doc): string {
    d.channelId
  }

  /** No channel contributes more than two documents; documents of unknown channel do not count. */
  ghost predicate AtMostTwoPerChannel(docs: seq<Doc>) {
    forall c :: c != "" ==> multiset(Map(ChannelOf, docs))[c] <= 2
  }

  /** A weight caps what its normalized signal can contribute: moving the signal anywhere within [0, 1] moves
      the score the same way, by no more than the weight. */
  lemma WeightCapsSignal(f: Features, x: real, simple: Simple, w: Weights)
    requires 0.0 <= x <= 1.0 && w.affinity >= 0.0 && w.channel >= 0.0 && w.session >= 0.0
    requires 0.0 <= f.personalAffinity <= 1.0 && 0.0 <= f.channelAffinity <= 1.0 && 0.0 <= f.sessionIntent <= 1.0
    ensures var score := ScoreWith(simple, w);
            && MovesWithin(score(f.(personalAffinity := x)) - score(f), x - f.personalAffinity, w.affinity)
            && MovesWithin(score(f.(channelAffinity := x)) - score(f), x - f.channelAffinity, w.channel)
            && MovesWithin(score(f.(sessionIntent := x)) - score(f), x - f.sessionIntent, w.session)
  {
    hide Engagement, MovesWithin;
    var score := ScoreWith(simple, w);
    Capped(w.affinity, x, f.personalAffinity, score(f.(personalAffinity := x)) - score(f));
    Capped(w.channel, x, f.channelAffinity, score(f.(channelAffinity := x)) - score(f));
    Capped(w.session, x, f.sessionIntent, score(f.(sessionIntent := x)) - score(f));
  }

  /** A change in the direction of a signal's change, at most cap in size. */
  predicate MovesWithin(change: real, signal: real, cap: real) {
    -cap <= change <= cap && (signal >= 0.0 ==> change >= 0.0) && (signal <= 0.0 ==> change <= 0.0)
  }

  lemma Capped(w: real, x: real, y: real, change: real)
    requires w >= 0.0 && 0.0 <= x <= 1.0 && 0.0 <= y <= 1.0 && change == w * x - w * y
    ensures MovesWithin(change, x - y, w)
  {
    assert w * x - w * y == w * (x - y);
    CappedStep(w, x - y, change);
  }

  lemma CappedStep(w: real, t: real, change: real)
    requires w >= 0.0 && -1.0 <= t <= 1.0 && change == w * t
    ensures MovesWithin(change, t, w)
  {
    NonNegative(w, 1.0 - t);
    NonNegative(w, 1.0 + t);
    if t >= 0.0 {
      NonNegative(w, t);
    } else {
      NonNegative(w, -t);
    }
  }

  lemma NonNegative(a: real, b: real)
    requires a >= 0.0 && b >= 0.0
    ensures a * b >= 0.0
  {
  }

  lemma BaselineScore(f: Features, m: Maxima, simple: Simple, w: Weights)
    requires Baseline(f)
    ensures ScoreWith(simple, w)(Normalized(f, m)) == BaseScore(simple, f)
  {
    assert SmoothedCtr(0.0, 0.0) == CtrPrior();
    assert Norm(0.0, m.affinity) == Norm(0.0, m.channel) == Norm(0.0, m.session) == 0.0;
  }

  lemma BaselineOrder(docs: seq<Doc>, simple: Simple, w: Weights)
    requires forall d :: d in docs ==> Baseline(d.features)
    ensures Order(docs, ScoreWith(simple, w)) == SimpleOrder(docs, simple)
  {
    var f, g := ScoreOne(ScoreWith(simple, w), MaximaOf(docs)), SimpleScored(simple);
    forall i | 0 <= i < |docs| ensures f(docs[i]) == g(docs[i]) {
      BaselineScore(docs[i].features, MaximaOf(docs), simple, w);
    }
    assert Map(f, docs) == Map(g, docs);
  }

  /** Without advanced signals the advanced ranking orders results as the simple one exactly when the gaps
      between simple scores hold against the penalties, result by result; for distinct ids that is exactly
      when both serve the ids in one order. Without a penalty both are one ranking. */
  lemma BaselineKeepsSimpleOrderIff(docs: seq<Doc>, simple: Simple, w: Weights)
    requires forall d :: d in docs ==> Baseline(d.features)
    ensures w.creatorPenalty <= 0.0 ==> Final(docs, ScoreWith(simple, w), w.creatorPenalty) == SimpleOrder(docs, simple)
    ensures w.creatorPenalty > 0.0 ==>
      var s, p := SimpleOrder(docs, simple), w.creatorPenalty;
      && (FinalPlaces(s, p) == Indices(0, |s|) <==> GapsHold(s, p))
      && (DistinctIds(docs) ==>
           (Map(IdOf, Final(docs, ScoreWith(simple, w), p)) == Map(IdOf, s) <==> GapsHold(s, p)))
  {
    BaselineOrder(docs, simple, w);
    if w.creatorPenalty > 0.0 {
      PenaltyKeepsOrderIff(docs, ScoreWith(simple, w), w.creatorPenalty);
    }
  }

  /** In particular with at most two results per channel the advanced ranking is the simple one, scores
      included. */
  lemma BaselineIsSimple(docs: seq<Doc>, simple: Simple, w: Weights)
    requires forall d :: d in docs ==> Baseline(d.features)
    requires AtMostTwoPerChannel(docs)
    ensures Final(docs, ScoreWith(simple, w), w.creatorPenalty) == SimpleOrder(docs, simple)
  {
    BaselineOrder(docs, simple, w);
    var s := Order(docs, ScoreWith(simple, w));
    if w.creatorPenalty > 0.0 {
      FinalIsSortedPermutation(docs, ScoreWith(simple, w), 0.0);
      NothingPenalized(docs, s, w.creatorPenalty);
      SortedIsFixed(Before, s);
    }
  }

  lemma NothingPenalized(docs: seq<Doc>, s: seq<Scored>, penalty: real)
    requires AtMostTwoPerChannel(docs) && multiset(Map(DocOf, s)) == multiset(docs)
    ensures Penalized(s, penalty) == s
  {
    MapPermutes(ChannelOf, Map(DocOf, s), docs);
    forall i | 0 <= i < |s| ensures Extra(s, i) == 0 {
      var c := s[i].doc.channelId;
      CountIsMultiplicity(s, c);
      CountGrows(s, i + 1, |s|, c);
      assert s[..|s|] == s;
    }
  }

  lemma {:induction false} CountIsMultiplicity(s: seq<Scored>, c: string)
    ensures Count(s, c) == multiset(Map(ChannelOf, Map(DocOf, s)))[c]
  {
    if s != [] {
      var init, last := s[..|s| - 1], s[|s| - 1];
      CountIsMultiplicity(init, c);
      assert Map(ChannelOf, Map(DocOf, s)) == Map(ChannelOf, Map(DocOf, init)) + [last.doc.channelId];
    }
  }

  /** The simple formula, its logarithm and exponential any functions. */
  function SimpleScore(popularity: real -> real, freshness: real -> real): Simple {
    (text: real, trgm: real, exact: real, views: real, age: real) =>
      0.5 * text + 0.2 * trgm + 0.1 * exact + 0.1 * popularity(views) + 0.1 * freshness(age)
  }

  function Plain(id: string, channel: string, text: real): Doc {
    Doc(id, channel, Features(text, 0.0, 0.0, 0.0, 0.0, 0.0, 0.0, 0.0, 0.0, 0.0, 0.0, false))
  }

  function ThreeAndOne(penalty: real): seq<Doc> {
    [Plain("a", "x", 6.0), Plain("b", "x", 4.0), Plain("c", "x", 2.0), Plain("d", "y", 2.0 - penalty)]
  }

  /** Four documents in descending text rank are in simple order. */
  lemma ThreeAndOneOrder(penalty: real, popularity: real -> real, freshness: real -> real)
    requires penalty > 0.0
    ensures var docs, s := ThreeAndOne(penalty), SimpleOrder(ThreeAndOne(penalty), SimpleScore(popularity, freshness));
            var same := 0.1 * popularity(0.0) + 0.1 * freshness(0.0);
            && DistinctIds(docs) && |s| == 4
            && forall i :: 0 <= i < 4 ==> s[i] == Scored(docs[i], 0.5 * docs[i].features.textRank + same)
  {
    hide Less;
    var docs, simple := ThreeAndOne(penalty), SimpleScore(popularity, freshness);
    assert DistinctIds(docs) by {
      assert "a"[0] == 'a' && "b"[0] == 'b' && "c"[0] == 'c' && "d"[0] == 'd';
    }
    var s := Map(SimpleScored(simple), docs);
    var same := 0.1 * popularity(0.0) + 0.1 * freshness(0.0);
    forall i | 0 <= i < 4 ensures s[i] == Scored(docs[i], 0.5 * docs[i].features.textRank + same) {
      assert s[i] == SimpleScored(simple)(docs[i]);
    }
    SortedFromPairs(Before, s);
    SortedIsFixed(Before, s);
  }

  /** Whatever the positive penalty, and the other weights, an anonymous request over four documents is not
      served in the simple order. */
  lemma ThirdResultLosesItsPlace(w: Weights, popularity: real -> real, freshness: real -> real)
    requires w.creatorPenalty > 0.0
    ensures var docs, simple := ThreeAndOne(w.creatorPenalty), SimpleScore(popularity, freshness);
            && DistinctIds(docs) && (forall d :: d in docs ==> Baseline(d.features))
            && Map(IdOf, Final(docs, ScoreWith(simple, w), w.creatorPenalty)) != Map(IdOf, SimpleOrder(docs, simple))
  {
    var docs, simple := ThreeAndOne(w.creatorPenalty), SimpleScore(popularity, freshness);
    ThreeAndOneOrder(w.creatorPenalty, popularity, freshness);
    assert forall d :: d in docs ==> Baseline(d.features);
    hide Less, SimpleOrder, Final, DistinctIds, ScoreWith, SimpleScore;
    var s := SimpleOrder(docs, simple);
    assert "x" != "y" by { assert "x"[0] == 'x' && "y"[0] == 'y'; }
    ThreeOfOneChannel(s);
    hide Extra;
    assert s[2].score - s[3].score == w.creatorPenalty / 2.0;
    assert !GapHolds(s, w.creatorPenalty, 3);
    BaselineKeepsSimpleOrderIff(docs, simple, w);
  }

  lemma CountNext(s: seq<Scored>, i: nat, channel: string)
    requires i < |s|
    ensures Count(s[..i], channel) == if i == 0 then 0 else Count(s[..i], channel)
    ensures Count(s[..i + 1], channel) == Count(s[..i], channel) + if s[i].doc.channelId == channel then 1 else 0
  {
    assert s[..i + 1][..i] == s[..i];
  }

  lemma ThreeOfOneChannel(s: seq<Scored>)
    requires |s| == 4 && s[0].doc.channelId == s[1].doc.channelId == s[2].doc.channelId != ""
    requires s[3].doc.channelId != s[0].doc.channelId
    ensures Extra(s, 2) == 1 && Extra(s, 3) == 0
  {
    var c, e := s[0].doc.channelId, s[3].doc.channelId;
    CountNext(s, 0, c);
    CountNext(s, 1, c);
    CountNext(s, 2, c);
    CountNext(s, 0, e);
    CountNext(s, 1, e);
    CountNext(s, 2, e);
    CountNext(s, 3, e);
    hide Count;
  }
}
