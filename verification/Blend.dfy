/** Suggestion blending: score, merge same-text candidates, rank, reserve slots for history and documents. */
module Blend {
  import opened Sorting
  import opened TextOrder
  import opened Wrappers

  datatype Source = Query | Doc | History

  datatype Candidate = Candidate(
    text: string, kind: string, source: Source, videoId: string, channelHandle: string,
    isPersonal: bool, exactPrefix: bool, trending: bool, popularity: real)

  datatype Suggestion = Suggestion(text: string, kind: string, videoId: string, channelHandle: string, isPersonal: bool)

  datatype Weights = Weights(pop: real, pfx: real, pers: real, doc: real, trend: real, len: real)

  datatype Scored = Scored(cand: Candidate, score: real)

  /** Unicode folding: the merge key of a text (empty for blank text) and its lower-case form. */
  datatype Folding = Folding(key: string -> string, lower: string -> string)

  // ----- scoring -----

  function MaxPop(cands: seq<Candidate>, s: Source): real {
    if cands == [] then 0.0
    else
      var m, c := MaxPop(cands[..|cands| - 1], s), cands[|cands| - 1];
      if c.source == s && c.popularity > m then c.popularity else m
  }

  function Share(popularity: real, max: real): real {
    if max > 0.0 then popularity / max else 0.0
  }

  function LengthPenalty(text: string): real {
    var p := |text| as real / 50.0;
    if p > 1.0 then 1.0 else p
  }

  /** maxQuery and maxDoc are the largest popularities of those streams. */
  function BlendScore(c: Candidate, maxQuery: real, maxDoc: real, w: Weights): real {
    w.pop * (if c.source == Query then Share(c.popularity, maxQuery) else 0.0)
    + w.pfx * (if c.exactPrefix then 1.0 else 0.5)
    + w.pers * (if c.isPersonal then 1.0 else 0.0)
    + w.doc * (if c.source == Doc then Share(c.popularity, maxDoc) else 0.0)
    + w.trend * (if c.trending then 1.0 else 0.0)
    - w.len * LengthPenalty(c.text)
  }

  /** Exact prefixes first, then score, then lower-case text. */
  function Better(lower: string -> string): (Scored, Scored) -> bool {
    (a: Scored, b: Scored) =>
      if a.cand.exactPrefix != b.cand.exactPrefix then a.cand.exactPrefix
      else if a.score != b.score then a.score > b.score
      else Less(lower(a.cand.text), lower(b.cand.text))
  }

  // ----- merging -----

  /** The winner takes over a loser's personal mark, and its video id when it has none. */
  function Carry(winner: Scored, loser: Scored): Scored {
    winner.(cand := winner.cand.(
      isPersonal := winner.cand.isPersonal || loser.cand.isPersonal,
      videoId := if winner.cand.videoId == "" then loser.cand.videoId else winner.cand.videoId))
  }

  function Merge(fold: Folding, x: Scored, cur: Scored): Scored {
    if Better(fold.lower)(x, cur) then Carry(x, cur) else Carry(cur, x)
  }

  function Add(fold: Folding, best: map<string, Scored>, x: Scored): map<string, Scored> {
    var key := fold.key(x.cand.text);
    if key == "" then best
    else best[key := if key in best then Merge(fold, x, best[key]) else x]
  }

  /** One scored candidate per merge key. */
  function BestOf(fold: Folding, cands: seq<Candidate>, maxQuery: real, maxDoc: real, w: Weights): map<string, Scored> {
    if cands == [] then map[]
    else
      var c := cands[|cands| - 1];
      Add(fold, BestOf(fold, cands[..|cands| - 1], maxQuery, maxDoc, w), Scored(c, BlendScore(c, maxQuery, maxDoc, w)))
  }

  /** What the merge keeps of a key's candidates: the text, kind and score of one that none beats, a
      personal mark iff some candidate had one, a video id iff some had one, and then one of theirs. */
  ghost predicate Merged(fold: Folding, cands: seq<Candidate>, maxQuery: real, maxDoc: real, w: Weights, k: string, b: Scored) {
    && (exists c :: c in cands && fold.key(c.text) == k
          && b == Scored(c, BlendScore(c, maxQuery, maxDoc, w)).(cand := c.(isPersonal := b.cand.isPersonal, videoId := b.cand.videoId)))
    && (forall c :: c in cands && fold.key(c.text) == k ==>
          !Better(fold.lower)(Scored(c, BlendScore(c, maxQuery, maxDoc, w)), b))
    && (b.cand.isPersonal <==> exists c :: c in cands && fold.key(c.text) == k && c.isPersonal)
    && (b.cand.videoId != "" <==> exists c :: c in cands && fold.key(c.text) == k && c.videoId != "")
    && (b.cand.videoId != "" ==> exists c :: c in cands && fold.key(c.text) == k && c.videoId == b.cand.videoId)
  }

  function Keys(fold: Folding, cands: seq<Candidate>): set<string> {
    set c | c in cands && fold.key(c.text) != "" :: fold.key(c.text)
  }

  /** Every non-empty key has exactly one merged candidate, and merging loses nothing of the key. */
  lemma {:induction false} BestIsMerged(fold: Folding, cands: seq<Candidate>, maxQuery: real, maxDoc: real, w: Weights)
    ensures var best := BestOf(fold, cands, maxQuery, maxDoc, w);
            && best.Keys == Keys(fold, cands)
            && forall k :: k in best ==> fold.key(best[k].cand.text) == k && Merged(fold, cands, maxQuery, maxDoc, w, k, best[k])
  {
    if cands != [] {
      var init, c := cands[..|cands| - 1], cands[|cands| - 1];
      assert cands == init + [c];
      BestIsMerged(fold, init, maxQuery, maxDoc, w);
      var before, best := BestOf(fold, init, maxQuery, maxDoc, w), BestOf(fold, cands, maxQuery, maxDoc, w);
      KeysSnoc(fold, init, c);
      hide Merged, BlendScore, Merge, Keys;
      forall k | k in best ensures fold.key(best[k].cand.text) == k && Merged(fold, cands, maxQuery, maxDoc, w, k, best[k]) {
        if k != fold.key(c.text) {
          MergedElsewhere(fold, init, c, maxQuery, maxDoc, w, k, best[k]);
        } else if k in before {
          MergedTogether(fold, init, c, maxQuery, maxDoc, w, k, before[k]);
        } else {
          MergedAlone(fold, init, c, maxQuery, maxDoc, w, k);
        }
      }
    }
  }

  lemma KeysSnoc(fold: Folding, init: seq<Candidate>, c: Candidate)
    ensures Keys(fold, init + [c]) == Keys(fold, init) + (if fold.key(c.text) == "" then {} else {fold.key(c.text)})
    ensures forall d :: d in init && fold.key(d.text) != "" ==> fold.key(d.text) in Keys(fold, init)
  {
    forall k | k in Keys(fold, init) ensures k in Keys(fold, init + [c]) {
      var d :| d in init && fold.key(d.text) == k;
      assert d in init + [c];
    }
    assert c in init + [c];
  }

  lemma MergedElsewhere(fold: Folding, init: seq<Candidate>, c: Candidate, maxQuery: real, maxDoc: real, w: Weights, k: string, b: Scored)
    requires Merged(fold, init, maxQuery, maxDoc, w, k, b) && fold.key(c.text) != k
    ensures Merged(fold, init + [c], maxQuery, maxDoc, w, k, b)
  {
    assert forall d :: d in init + [c] && fold.key(d.text) == k <==> d in init && fold.key(d.text) == k;
  }

  lemma MergedAlone(fold: Folding, init: seq<Candidate>, c: Candidate, maxQuery: real, maxDoc: real, w: Weights, k: string)
    requires fold.key(c.text) == k && k !in Keys(fold, init) && k != ""
    ensures Merged(fold, init + [c], maxQuery, maxDoc, w, k, Scored(c, BlendScore(c, maxQuery, maxDoc, w)))
  {
    BetterIsWeak(fold.lower);
    assert c in init + [c];
    forall d | d in init + [c] && fold.key(d.text) == k ensures d == c {
      assert d in init ==> k in Keys(fold, init);
    }
  }

  lemma MergedTogether(fold: Folding, init: seq<Candidate>, c: Candidate, maxQuery: real, maxDoc: real, w: Weights, k: string, cur: Scored)
    requires Merged(fold, init, maxQuery, maxDoc, w, k, cur) && fold.key(c.text) == k
    ensures Merged(fold, init + [c], maxQuery, maxDoc, w, k, Merge(fold, Scored(c, BlendScore(c, maxQuery, maxDoc, w)), cur))
  {
    hide BlendScore;
    BetterIsWeak(fold.lower);
    var x := Scored(c, BlendScore(c, maxQuery, maxDoc, w));
    var b := Merge(fold, x, cur);
    assert c in init + [c];
    assert forall d :: d in init ==> d in init + [c];
    forall d | d in init + [c] && fold.key(d.text) == k ensures !Better(fold.lower)(Scored(d, BlendScore(d, maxQuery, maxDoc, w)), b) {
      CarryKeepsRank(fold, Scored(d, BlendScore(d, maxQuery, maxDoc, w)), x, cur);
    }
  }

  lemma CarryKeepsRank(fold: Folding, d: Scored, x: Scored, cur: Scored)
    requires d == x || !Better(fold.lower)(d, cur)
    ensures !Better(fold.lower)(d, Merge(fold, x, cur))
  {
    BetterIsWeak(fold.lower);
    assert Better(fold.lower)(d, Merge(fold, x, cur)) == Better(fold.lower)(d, if Better(fold.lower)(x, cur) then x else cur);
  }

  /** Each stream is normalized against its own largest popularity: no candidate's share exceeds 1, and where
      the stream has any popularity some candidate of that stream has the whole of it. */
  lemma StreamsNormalized(cands: seq<Candidate>, s: Source)
    ensures forall c :: c in cands && c.source == s ==> Share(c.popularity, MaxPop(cands, s)) <= 1.0
    ensures MaxPop(cands, s) > 0.0 ==> exists c :: c in cands && c.source == s && Share(c.popularity, MaxPop(cands, s)) == 1.0
  {
    hide Share;
    var max := MaxPop(cands, s);
    MaxPopIsLargest(cands, s);
    forall c | c in cands && c.source == s ensures Share(c.popularity, max) <= 1.0 {
      ShareRange(c.popularity, max);
    }
    if max > 0.0 {
      var c :| c in cands && c.source == s && c.popularity == max;
      ShareRange(c.popularity, max);
      assert Share(c.popularity, max) == 1.0;
    }
  }

  lemma ShareRange(v: real, max: real)
    requires v <= max
    ensures Share(v, max) <= 1.0 && (v == max > 0.0 ==> Share(v, max) == 1.0)
  {
    if max > 0.0 {
      assert v == (v / max) * max;
    }
  }

  lemma {:induction false} MaxPopIsLargest(cands: seq<Candidate>, s: Source)
    ensures MaxPop(cands, s) >= 0.0 && forall c :: c in cands && c.source == s ==> c.popularity <= MaxPop(cands, s)
    ensures MaxPop(cands, s) > 0.0 ==> exists c :: c in cands && c.source == s && c.popularity == MaxPop(cands, s)
  {
    if cands != [] {
      var init, last := cands[..|cands| - 1], cands[|cands| - 1];
      MaxPopIsLargest(init, s);
      assert cands == init + [last];
      assert last in cands && forall c :: c in init ==> c in cands;
    }
  }

  // ----- reserving slots -----

  /** The first item of a class at or after an index. */
  function FirstAt(ranked: seq<Scored>, from: nat, s: Source): (r: Option<nat>)
    ensures r.Some? ==> from <= r.value < |ranked| && ranked[r.value].cand.source == s
    ensures r.Some? ==> forall i :: from <= i < r.value ==> ranked[i].cand.source != s
    ensures r.None? ==> forall i :: from <= i < |ranked| ==> ranked[i].cand.source != s
    decreases |ranked| - from
  {
    if from >= |ranked| then None else if ranked[from].cand.source == s then Some(from) else FirstAt(ranked, from + 1, s)
  }

  predicate HasClass(items: seq<Scored>, s: Source) {
    exists i :: 0 <= i < |items| && items[i].cand.source == s
  }

  /** The window with a given ranked item in its last slot. */
  function Window(ranked: seq<Scored>, limit: nat, last: nat): seq<Scored>
    requires 0 < limit < |ranked| && last < |ranked|
  {
    ranked[..limit - 1] + [ranked[last]]
  }

  /** The item in the last slot once a class has been ensured. */
  function Ensured(ranked: seq<Scored>, limit: nat, last: nat, s: Source): (r: nat)
    requires 0 < limit < |ranked| && limit - 1 <= last < |ranked|
    ensures limit - 1 <= r < |ranked|
  {
    if HasClass(Window(ranked, limit, last), s) then last
    else
      var p := FirstAt(ranked, limit, s);
      if p.Some? then p.value else last
  }

  function LastSlot(ranked: seq<Scored>, limit: nat): (r: nat)
    requires 0 < limit < |ranked|
    ensures limit - 1 <= r < |ranked|
  {
    Ensured(ranked, limit, Ensured(ranked, limit, limit - 1, History), Doc)
  }

  function Reserved(fold: Folding, ranked: seq<Scored>, limit: nat): seq<Scored>
    requires limit > 0
  {
    if |ranked| <= limit then ranked
    else SortBy(Better(fold.lower), Window(ranked, limit, LastSlot(ranked, limit)))
  }

  // ----- the pipeline -----

  method Ensure(ranked: seq<Scored>, limit: nat, picked: seq<Scored>, s: Source, ghost last: nat) returns (out: seq<Scored>)
    requires 0 < limit < |ranked| && limit - 1 <= last < |ranked| && picked == Window(ranked, limit, last)
    ensures out == Window(ranked, limit, Ensured(ranked, limit, last, s))
  {
    out := picked;
    var i := 0;
    while i < |picked|
      invariant 0 <= i <= |picked| && out == picked
      invariant forall j :: 0 <= j < i ==> picked[j].cand.source != s
    {
      if picked[i].cand.source == s {
        return;
      }
      i := i + 1;
    }
    var promote := limit;
    while promote < |ranked| && ranked[promote].cand.source != s
      invariant limit <= promote <= |ranked|
      invariant FirstAt(ranked, limit, s) == FirstAt(ranked, promote, s)
    {
      promote := promote + 1;
    }
    if promote == |ranked| {
      return;
    }
    // No picked item is of the class, so the weakest item outside it is the last one.
    out := out[|picked| - 1 := ranked[promote]];
  }

  method ReserveSlots(fold: Folding, ranked: seq<Scored>, limit: nat) returns (picked: seq<Scored>)
    requires limit > 0
    ensures picked == Reserved(fold, ranked, limit)
  {
    if |ranked| <= limit {
      return ranked;
    }
    picked := ranked[..limit];
    picked := Ensure(ranked, limit, picked, History, limit - 1);
    picked := Ensure(ranked, limit, picked, Doc, Ensured(ranked, limit, limit - 1, History));
    picked := SortBy(Better(fold.lower), picked);
  }

  function KeyOf(fold: Folding, s: Scored): string {
    fold.key(s.cand.text)
  }

  /** A ranking of the merged candidates: each once, best first. */
  ghost predicate Ranks(fold: Folding, best: map<string, Scored>, ranked: seq<Scored>) {
    && Sorted(Better(fold.lower), ranked) && |ranked| == |best|
    && (forall i :: 0 <= i < |ranked| ==> KeyOf(fold, ranked[i]) in best && best[KeyOf(fold, ranked[i])] == ranked[i])
    && (forall i, j :: 0 <= i < j < |ranked| ==> KeyOf(fold, ranked[i]) != KeyOf(fold, ranked[j]))
  }

  function Suggest(s: Scored): Suggestion {
    Suggestion(s.cand.text, s.cand.kind, s.cand.videoId, s.cand.channelHandle, s.cand.isPersonal)
  }

  /** Map iteration order is arbitrary, so the merged candidates reach the sort in any order. */
  method Blend(fold: Folding, cands: seq<Candidate>, limit: int, w: Weights) returns (out: seq<Suggestion>)
    ensures limit <= 0 || cands == [] ==> out == []
    ensures limit > 0 && cands != [] ==>
      exists ranked :: Ranks(fold, BestOf(fold, cands, MaxPop(cands, Query), MaxPop(cands, Doc), w), ranked)
                       && out == Map(Suggest, Reserved(fold, ranked, limit))
  {
    if limit <= 0 || cands == [] {
      return [];
    }
    var maxQuery, maxDoc := 0.0, 0.0;
    var n := 0;
    while n < |cands|
      invariant 0 <= n <= |cands| && maxQuery == MaxPop(cands[..n], Query) && maxDoc == MaxPop(cands[..n], Doc)
    {
      assert cands[..n + 1][..n] == cands[..n];
      var c := cands[n];
      if c.source == Query && c.popularity > maxQuery {
        maxQuery := c.popularity;
      } else if c.source == Doc && c.popularity > maxDoc {
        maxDoc := c.popularity;
      }
      n := n + 1;
    }
    assert cands[..n] == cands;
    var best: map<string, Scored> := map[];
    n := 0;
    while n < |cands|
      invariant 0 <= n <= |cands| && best == BestOf(fold, cands[..n], maxQuery, maxDoc, w)
    {
      assert cands[..n + 1][..n] == cands[..n];
      best := Add(fold, best, Scored(cands[n], BlendScore(cands[n], maxQuery, maxDoc, w)));
      n := n + 1;
    }
    assert cands[..n] == cands;
    BestIsMerged(fold, cands, maxQuery, maxDoc, w);
    var ranked := Values(fold, best);
    ghost var values := ranked;
    ranked := SortBy(Better(fold.lower), ranked);
    SortRanks(fold, best, values);
    var picked := ReserveSlots(fold, ranked, limit);
    out := Map(Suggest, picked);
  }

  method Values(fold: Folding, best: map<string, Scored>) returns (ranked: seq<Scored>)
    requires forall k :: k in best ==> KeyOf(fold, best[k]) == k
    ensures |ranked| == |best|
    ensures forall i :: 0 <= i < |ranked| ==> KeyOf(fold, ranked[i]) in best && best[KeyOf(fold, ranked[i])] == ranked[i]
    ensures forall i, j :: 0 <= i < j < |ranked| ==> KeyOf(fold, ranked[i]) != KeyOf(fold, ranked[j])
  {
    ranked := [];
    var todo := best.Keys;
    while todo != {}
      invariant todo <= best.Keys && |ranked| + |todo| == |best|
      invariant forall i :: 0 <= i < |ranked| ==>
        KeyOf(fold, ranked[i]) in best && KeyOf(fold, ranked[i]) !in todo && best[KeyOf(fold, ranked[i])] == ranked[i]
      invariant forall i, j :: 0 <= i < j < |ranked| ==> KeyOf(fold, ranked[i]) != KeyOf(fold, ranked[j])
      decreases |todo|
    {
      var k :| k in todo;
      ranked := ranked + [best[k]];
      todo := todo - {k};
    }
  }

  // ----- the ranking -----

  lemma BetterIsWeak(lower: string -> string)
    ensures StrictWeak(Better(lower))
  {
    var before := Better(lower);
    forall a, b | before(a, b) ensures !before(b, a) {
      LessTrichotomy(lower(a.cand.text), lower(b.cand.text));
    }
    forall a, b, c | before(a, b) && !before(c, b) ensures before(a, c) {
      BetterChains(lower, a, b, c);
    }
  }

  lemma BetterChains(lower: string -> string, a: Scored, b: Scored, c: Scored)
    requires Better(lower)(a, b) && !Better(lower)(c, b)
    ensures Better(lower)(a, c)
  {
    hide Less;
    var x, y, z := lower(a.cand.text), lower(b.cand.text), lower(c.cand.text);
    LessTrichotomy(z, y);
    if Less(x, y) && Less(y, z) {
      LessTransitive(x, y, z);
    }
  }

  lemma SortRanks(fold: Folding, best: map<string, Scored>, values: seq<Scored>)
    requires |values| == |best|
    requires forall i :: 0 <= i < |values| ==> KeyOf(fold, values[i]) in best && best[KeyOf(fold, values[i])] == values[i]
    requires forall i, j :: 0 <= i < j < |values| ==> KeyOf(fold, values[i]) != KeyOf(fold, values[j])
    ensures Ranks(fold, best, SortBy(Better(fold.lower), values))
  {
    BetterIsWeak(fold.lower);
    SortFacts(Better(fold.lower), values);
    var ranked := SortBy(Better(fold.lower), values);
    KeysStayDistinct(fold, values, ranked);
    hide SortBy, Sorted, Better, KeyOf;
    forall i | 0 <= i < |ranked| ensures KeyOf(fold, ranked[i]) in best && best[KeyOf(fold, ranked[i])] == ranked[i] {
      assert ranked[i] in values;
    }
  }

  /** A permutation of items with distinct keys has distinct keys. */
  lemma KeysStayDistinct(fold: Folding, a: seq<Scored>, b: seq<Scored>)
    requires multiset(a) == multiset(b)
    requires forall i, j :: 0 <= i < j < |a| ==> KeyOf(fold, a[i]) != KeyOf(fold, a[j])
    ensures forall i, j :: 0 <= i < j < |b| ==> KeyOf(fold, b[i]) != KeyOf(fold, b[j])
  {
    SameElements(a, b);
    forall i, j | 0 <= i < j < |b| ensures KeyOf(fold, b[i]) != KeyOf(fold, b[j]) {
      assert b[i] in a && b[j] in a;
      var x :| 0 <= x < |a| && a[x] == b[i];
      var y :| 0 <= y < |a| && a[y] == b[j];
      if x == y {
        Twice(b, i, j);
        Once(fold, a, x);
      }
    }
  }

  lemma Twice(b: seq<Scored>, i: nat, j: nat)
    requires i < j < |b| && b[i] == b[j]
    ensures multiset(b)[b[i]] >= 2
  {
    assert b == b[..i] + [b[i]] + b[i + 1..j] + [b[j]] + b[j + 1..];
  }

  lemma {:induction false} Once(fold: Folding, a: seq<Scored>, x: nat)
    requires forall i, j :: 0 <= i < j < |a| ==> KeyOf(fold, a[i]) != KeyOf(fold, a[j])
    requires x < |a|
    ensures multiset(a)[a[x]] == 1
  {
    assert a == a[..x] + [a[x]] + a[x + 1..];
    assert a[x] !in a[..x] && a[x] !in a[x + 1..];
  }

  /** The merged candidates reach the sort in map order, which is arbitrary: their ranking is nevertheless
      determined exactly when no two of them tie in tier, score and lower-case text. */
  lemma RankingUniqueIff(fold: Folding, best: map<string, Scored>, a: seq<Scored>)
    requires Ranks(fold, best, a)
    ensures (forall b :: Ranks(fold, best, b) ==> b == a) <==> Separates(Better(fold.lower), a)
  {
    hide Sorted, KeyOf, Better;
    if Separates(Better(fold.lower), a) {
      forall b | Ranks(fold, best, b) ensures b == a {
        SamePermutation(fold, best, a, b);
        SortedUnique(Better(fold.lower), a, b);
      }
    } else {
      var x, y :| x in a && y in a && x != y && !Better(fold.lower)(x, y) && !Better(fold.lower)(y, x);
      var i :| 0 <= i < |a| && a[i] == x;
      var j :| 0 <= j < |a| && a[j] == y;
      var b := TieAllowsAnotherOrder(fold, best, a, if i < j then i else j, if i < j then j else i);
    }
  }

  /** Swapping a tied item with its successor gives another ranking. */
  lemma TieAllowsAnotherOrder(fold: Folding, best: map<string, Scored>, a: seq<Scored>, i: nat, j: nat) returns (b: seq<Scored>)
    requires Ranks(fold, best, a) && i < j < |a| && !Better(fold.lower)(a[i], a[j])
    ensures Ranks(fold, best, b) && b != a
  {
    BetterIsWeak(fold.lower);
    var before := Better(fold.lower);
    if i + 1 < j {
      SortedAt(before, a, i + 1, j);
    }
    b := SwapTied(fold, best, a, i);
  }

  /** The index p comes from when i and i + 1 are swapped. */
  function Moved(i: nat, p: nat): nat {
    if p == i then i + 1 else if p == i + 1 then i else p
  }

  lemma SamePermutation(fold: Folding, best: map<string, Scored>, a: seq<Scored>, b: seq<Scored>)
    requires Ranks(fold, best, a) && Ranks(fold, best, b)
    ensures multiset(a) == multiset(b)
  {
    hide Sorted;
    forall x ensures multiset(a)[x] == multiset(b)[x] {
      InRanking(fold, best, a, x);
      InRanking(fold, best, b, x);
    }
  }

  lemma InRanking(fold: Folding, best: map<string, Scored>, a: seq<Scored>, x: Scored)
    requires Ranks(fold, best, a)
    ensures multiset(a)[x] == if KeyOf(fold, x) in best && best[KeyOf(fold, x)] == x then 1 else 0
  {
    hide Sorted;
    var keys := set i | 0 <= i < |a| :: KeyOf(fold, a[i]);
    KeySetSize(fold, a);
    assert keys <= best.Keys;
    SubsetCard(keys, best.Keys);
    if KeyOf(fold, x) in best && best[KeyOf(fold, x)] == x {
      assert KeyOf(fold, x) in keys;
      var i :| 0 <= i < |a| && KeyOf(fold, a[i]) == KeyOf(fold, x);
      Once(fold, a, i);
    } else {
      assert x !in a;
      assert x !in multiset(a);
    }
  }

  lemma {:induction false} KeySetSize(fold: Folding, a: seq<Scored>)
    requires forall i, j :: 0 <= i < j < |a| ==> KeyOf(fold, a[i]) != KeyOf(fold, a[j])
    ensures |set i | 0 <= i < |a| :: KeyOf(fold, a[i])| == |a|
  {
    if a != [] {
      var init := a[..|a| - 1];
      KeySetSize(fold, init);
      var last := KeyOf(fold, a[|a| - 1]);
      var keys, rest := set i | 0 <= i < |a| :: KeyOf(fold, a[i]), set i | 0 <= i < |init| :: KeyOf(fold, init[i]);
      forall k | k in keys ensures k in rest + {last} {
        var i :| 0 <= i < |a| && k == KeyOf(fold, a[i]);
        if i < |init| { assert init[i] == a[i]; }
      }
      forall k | k in rest ensures k in keys && k != last {
        var i :| 0 <= i < |init| && k == KeyOf(fold, init[i]);
        assert init[i] == a[i];
      }
      assert last in keys;
      assert keys == rest + {last};
    }
  }

  // ----- what is served -----

  /** Serves min(limit, number of distinct non-empty keys) merged candidates with distinct keys, ranked, so
      no fuzzy match stands ahead of an exact one. */
  lemma ServedShape(fold: Folding, best: map<string, Scored>, ranked: seq<Scored>, limit: nat)
    requires limit > 0 && Ranks(fold, best, ranked)
    ensures var picked := Reserved(fold, ranked, limit);
            && |picked| == (if |best| < limit then |best| else limit)
            && (forall i :: 0 <= i < |picked| ==> KeyOf(fold, picked[i]) in best && best[KeyOf(fold, picked[i])] == picked[i])
            && (forall i, j :: 0 <= i < j < |picked| ==> KeyOf(fold, picked[i]) != KeyOf(fold, picked[j]))
            && Sorted(Better(fold.lower), picked)
            && (forall i, j :: 0 <= i < j < |picked| && picked[j].cand.exactPrefix ==> picked[i].cand.exactPrefix)
  {
    var picked := Reserved(fold, ranked, limit);
    if |ranked| > limit {
      var window := Window(ranked, limit, LastSlot(ranked, limit));
      BetterIsWeak(fold.lower);
      SortFacts(Better(fold.lower), window);
      WindowKeys(fold, best, ranked, limit, LastSlot(ranked, limit));
      KeysStayDistinct(fold, window, picked);
      hide SortBy, LastSlot;
      forall i | 0 <= i < |picked| ensures KeyOf(fold, picked[i]) in best && best[KeyOf(fold, picked[i])] == picked[i] {
        assert picked[i] in window;
      }
    }
    forall i, j | 0 <= i < j < |picked| && picked[j].cand.exactPrefix ensures picked[i].cand.exactPrefix {
      SortedAt(Better(fold.lower), picked, i, j);
    }
  }

  lemma WindowKeys(fold: Folding, best: map<string, Scored>, ranked: seq<Scored>, limit: nat, last: nat)
    requires Ranks(fold, best, ranked) && 0 < limit < |ranked| && limit - 1 <= last < |ranked|
    ensures var window := Window(ranked, limit, last);
            && (forall i, j :: 0 <= i < j < |window| ==> KeyOf(fold, window[i]) != KeyOf(fold, window[j]))
            && (forall x :: x in window ==> KeyOf(fold, x) in best && best[KeyOf(fold, x)] == x)
  {
    hide Sorted;
    var window := Window(ranked, limit, last);
    forall i, j | 0 <= i < j < |window| ensures KeyOf(fold, window[i]) != KeyOf(fold, window[j]) {
      assert window[i] == ranked[i] && window[j] == ranked[if j == limit - 1 then last else j];
    }
  }

  lemma PickedClass(fold: Folding, ranked: seq<Scored>, limit: nat, s: Source)
    requires 0 < limit < |ranked|
    ensures HasClass(Reserved(fold, ranked, limit), s) <==> HasClass(Window(ranked, limit, LastSlot(ranked, limit)), s)
  {
    var window := Window(ranked, limit, LastSlot(ranked, limit));
    BetterIsWeak(fold.lower);
    SortFacts(Better(fold.lower), window);
    SameClass(window, SortBy(Better(fold.lower), window), s);
  }

  lemma SameClass(a: seq<Scored>, b: seq<Scored>, s: Source)
    requires forall x :: x in a <==> x in b
    ensures HasClass(a, s) <==> HasClass(b, s)
  {
    if i :| 0 <= i < |a| && a[i].cand.source == s { assert a[i] in b; }
    if i :| 0 <= i < |b| && b[i].cand.source == s { assert b[i] in a; }
  }

  lemma WindowClass(ranked: seq<Scored>, limit: nat, last: nat, s: Source)
    requires 0 < limit < |ranked| && limit - 1 <= last < |ranked|
    ensures HasClass(Window(ranked, limit, last), s) <==> HasClass(ranked[..limit - 1], s) || ranked[last].cand.source == s
  {
    var head, window := ranked[..limit - 1], Window(ranked, limit, last);
    assert window[limit - 1] == ranked[last];
    if i :| 0 <= i < |head| && head[i].cand.source == s { assert window[i] == head[i]; }
    if i :| 0 <= i < |window| && window[i].cand.source == s { assert i < limit - 1 ==> head[i] == window[i]; }
  }

  /** Some item of the first limit - 1 is a history or document suggestion. */
  predicate HeadHasEither(ranked: seq<Scored>, limit: nat)
    requires 0 < limit < |ranked|
  {
    HasClass(ranked[..limit - 1], History) || HasClass(ranked[..limit - 1], Doc)
  }

  /** Where a class is available: in the head, in the last slot of the window, or behind it. */
  lemma ClassSomewhere(ranked: seq<Scored>, limit: nat, s: Source)
    requires 0 < limit < |ranked|
    ensures HasClass(ranked, s) <==>
      HasClass(ranked[..limit - 1], s) || ranked[limit - 1].cand.source == s || FirstAt(ranked, limit, s).Some?
  {
    var head := ranked[..limit - 1];
    if i :| 0 <= i < |ranked| && ranked[i].cand.source == s { assert i < limit - 1 ==> head[i] == ranked[i]; }
    if i :| 0 <= i < |head| && head[i].cand.source == s { assert ranked[i] == head[i]; }
  }

  /** Whenever a history or document suggestion is available one is served, and a class that is available
      alone is served. */
  lemma OneClassSurvives(fold: Folding, ranked: seq<Scored>, limit: nat)
    requires limit > 0
    ensures var picked := Reserved(fold, ranked, limit);
            && (HasClass(ranked, History) || HasClass(ranked, Doc) ==> HasClass(picked, History) || HasClass(picked, Doc))
            && (HasClass(ranked, History) && !HasClass(ranked, Doc) ==> HasClass(picked, History))
            && (HasClass(ranked, Doc) && !HasClass(ranked, History) ==> HasClass(picked, Doc))
  {
    if |ranked| > limit {
      SlotClasses(fold, ranked, limit);
    }
  }

  lemma SlotClasses(fold: Folding, ranked: seq<Scored>, limit: nat)
    requires 0 < limit < |ranked|
    ensures var picked, x := Reserved(fold, ranked, limit), LastSlot(ranked, limit);
            && (HasClass(picked, History) <==> HasClass(ranked[..limit - 1], History) || ranked[x].cand.source == History)
            && (HasClass(picked, Doc) <==> HasClass(ranked[..limit - 1], Doc) || ranked[x].cand.source == Doc)
    ensures forall s :: HasClass(ranked, s) <==>
      HasClass(ranked[..limit - 1], s) || ranked[limit - 1].cand.source == s || FirstAt(ranked, limit, s).Some?
    ensures var y := Ensured(ranked, limit, limit - 1, History);
            && y == (if HasClass(ranked[..limit - 1], History) || ranked[limit - 1].cand.source == History then limit - 1
                     else if FirstAt(ranked, limit, History).Some? then FirstAt(ranked, limit, History).value else limit - 1)
            && LastSlot(ranked, limit) ==
                 (if HasClass(ranked[..limit - 1], Doc) || ranked[y].cand.source == Doc then y
                  else if FirstAt(ranked, limit, Doc).Some? then FirstAt(ranked, limit, Doc).value else y)
  {
    var y := Ensured(ranked, limit, limit - 1, History);
    PickedClass(fold, ranked, limit, History);
    PickedClass(fold, ranked, limit, Doc);
    WindowClass(ranked, limit, LastSlot(ranked, limit), History);
    WindowClass(ranked, limit, LastSlot(ranked, limit), Doc);
    WindowClass(ranked, limit, limit - 1, History);
    WindowClass(ranked, limit, y, Doc);
    forall s { ClassSomewhere(ranked, limit, s); }
  }

  /** Both classes are promised a slot when available. With more merged candidates than slots that holds
      exactly when one of the first limit - 1 ranked is already a history or document suggestion; otherwise
      both compete for the last slot. */
  lemma BothClassesSurviveIff(fold: Folding, ranked: seq<Scored>, limit: nat)
    requires 0 < limit < |ranked| && HasClass(ranked, History) && HasClass(ranked, Doc)
    ensures HasClass(Reserved(fold, ranked, limit), History) && HasClass(Reserved(fold, ranked, limit), Doc)
            <==> HeadHasEither(ranked, limit)
  {
    SlotClasses(fold, ranked, limit);
    hide HasClass, FirstAt, Reserved, Ensured, LastSlot;
  }

  function Item(text: string, s: Source, score: real): Scored {
    Scored(Candidate(text, "", s, "", "", false, true, false, 0.0), score)
  }

  /** Promoting history evicts the only document in the window, which is not looked for again. */
  lemma HistoryEvictsTheDocument(fold: Folding)
    ensures var ranked := [Item("q", Query, 3.0), Item("d", Doc, 2.0), Item("h", History, 1.0)];
            && Sorted(Better(fold.lower), ranked)
            && HasClass(ranked[..2], Doc) && !HasClass(Reserved(fold, ranked, 2), Doc)
  {
    var ranked := [Item("q", Query, 3.0), Item("d", Doc, 2.0), Item("h", History, 1.0)];
    SortedFromPairs(Better(fold.lower), ranked);
    assert ranked[1].cand.source == Doc && ranked[..2][1] == ranked[1];
    assert ranked[..1] == [Item("q", Query, 3.0)];
    SlotClasses(fold, ranked, 2);
    assert FirstAt(ranked, 2, History) == Some(2) && FirstAt(ranked, 2, Doc) == None;
  }

  /** Promoting a document evicts the history item promoted just before it. */
  lemma DocumentEvictsTheHistory(fold: Folding)
    ensures var ranked := [Item("p", Query, 4.0), Item("q", Query, 3.0), Item("h", History, 2.0), Item("d", Doc, 1.0)];
            && Sorted(Better(fold.lower), ranked)
            && HasClass(ranked, History) && !HasClass(Reserved(fold, ranked, 2), History)
  {
    var ranked := [Item("p", Query, 4.0), Item("q", Query, 3.0), Item("h", History, 2.0), Item("d", Doc, 1.0)];
    SortedFromPairs(Better(fold.lower), ranked);
    LateHistoryIsEvicted(fold, ranked);
  }

  lemma LateHistoryIsEvicted(fold: Folding, ranked: seq<Scored>)
    requires |ranked| == 4 && ranked[0].cand.source == ranked[1].cand.source == Query
    requires ranked[2].cand.source == History && ranked[3].cand.source == Doc
    ensures HasClass(ranked, History) && HasClass(ranked, Doc) && !HasClass(Reserved(fold, ranked, 2), History)
  {
    assert ranked[..1] == [ranked[0]];
    SlotClasses(fold, ranked, 2);
    assert FirstAt(ranked, 2, History) == Some(2);
    assert FirstAt(ranked, 3, Doc) == Some(3) && FirstAt(ranked, 2, Doc) == Some(3);
  }

  // ----- candidates of distinct texts -----

  function ScoreOf(maxQuery: real, maxDoc: real, w: Weights): Candidate -> Scored {
    (c: Candidate) => Scored(c, BlendScore(c, maxQuery, maxDoc, w))
  }

  predicate DistinctTexts(fold: Folding, cands: seq<Candidate>) {
    && (forall i :: 0 <= i < |cands| ==> fold.key(cands[i].text) != "")
    && forall i, j :: 0 <= i < j < |cands| ==> fold.key(cands[i].text) != fold.key(cands[j].text)
  }

  /** Candidates of distinct texts are merged with nothing. */
  lemma {:induction false} DistinctBest(fold: Folding, cands: seq<Candidate>, maxQuery: real, maxDoc: real, w: Weights)
    requires DistinctTexts(fold, cands)
    ensures |BestOf(fold, cands, maxQuery, maxDoc, w)| == |cands|
    ensures forall i :: 0 <= i < |cands| ==> Kept(fold, cands[i], BestOf(fold, cands, maxQuery, maxDoc, w), maxQuery, maxDoc, w)
  {
    hide BlendScore, Keys, Merge, BestOf;
    if cands == [] {
      BestKeys(fold, cands, maxQuery, maxDoc, w);
      assert Keys(fold, []) == {} by { NoKeys(fold); }
    } else {
      var init, c := cands[..|cands| - 1], cands[|cands| - 1];
      assert cands == init + [c];
      DistinctBest(fold, init, maxQuery, maxDoc, w);
      KeyAbsent(fold, init, c);
      BestKeys(fold, init, maxQuery, maxDoc, w);
      LastAdded(fold, cands, maxQuery, maxDoc, w);
      var before, best := BestOf(fold, init, maxQuery, maxDoc, w), BestOf(fold, cands, maxQuery, maxDoc, w);
      assert best.Keys == before.Keys + {fold.key(c.text)} && |best| == |best.Keys| && |before| == |before.Keys|;
      forall i | 0 <= i < |cands| ensures Kept(fold, cands[i], best, maxQuery, maxDoc, w) {
        if i < |init| {
          assert Kept(fold, init[i], before, maxQuery, maxDoc, w) && fold.key(init[i].text) in before;
        }
      }
    }
  }

  lemma NoKeys(fold: Folding)
    ensures Keys(fold, []) == {}
  {
  }

  /** The candidate stands for its key as proposed. */
  predicate Kept(fold: Folding, c: Candidate, best: map<string, Scored>, maxQuery: real, maxDoc: real, w: Weights) {
    fold.key(c.text) in best && best[fold.key(c.text)] == Scored(c, BlendScore(c, maxQuery, maxDoc, w))
  }

  lemma BestKeys(fold: Folding, cands: seq<Candidate>, maxQuery: real, maxDoc: real, w: Weights)
    ensures BestOf(fold, cands, maxQuery, maxDoc, w).Keys == Keys(fold, cands)
  {
    BestIsMerged(fold, cands, maxQuery, maxDoc, w);
  }

  lemma LastAdded(fold: Folding, cands: seq<Candidate>, maxQuery: real, maxDoc: real, w: Weights)
    requires cands != [] && fold.key(cands[|cands| - 1].text) != ""
    requires fold.key(cands[|cands| - 1].text) !in BestOf(fold, cands[..|cands| - 1], maxQuery, maxDoc, w)
    ensures var c, before := cands[|cands| - 1], BestOf(fold, cands[..|cands| - 1], maxQuery, maxDoc, w);
            BestOf(fold, cands, maxQuery, maxDoc, w) == before[fold.key(c.text) := Scored(c, BlendScore(c, maxQuery, maxDoc, w))]
  {
  }

  lemma KeyAbsent(fold: Folding, init: seq<Candidate>, c: Candidate)
    requires DistinctTexts(fold, init + [c])
    ensures fold.key(c.text) !in Keys(fold, init)
  {
    forall d | d in init ensures fold.key(d.text) != fold.key(c.text) {
      var i :| 0 <= i < |init| && init[i] == d;
      assert (init + [c])[i] == d && (init + [c])[|init|] == c;
    }
  }

  /** Candidates of distinct texts, given from best to worst, are a ranking of themselves. */
  lemma DistinctRanking(fold: Folding, cands: seq<Candidate>, maxQuery: real, maxDoc: real, w: Weights)
    requires DistinctTexts(fold, cands) && Sorted(Better(fold.lower), Map(ScoreOf(maxQuery, maxDoc, w), cands))
    ensures Ranks(fold, BestOf(fold, cands, maxQuery, maxDoc, w), Map(ScoreOf(maxQuery, maxDoc, w), cands))
  {
    hide Sorted, BestOf, BlendScore, Keys;
    DistinctBest(fold, cands, maxQuery, maxDoc, w);
    var scored, best := Map(ScoreOf(maxQuery, maxDoc, w), cands), BestOf(fold, cands, maxQuery, maxDoc, w);
    forall i | 0 <= i < |cands|
      ensures KeyOf(fold, scored[i]) == fold.key(cands[i].text) && best[KeyOf(fold, scored[i])] == scored[i]
    {
      assert Kept(fold, cands[i], best, maxQuery, maxDoc, w);
    }
  }

  // ----- two inputs -----

  const DEFAULT_WEIGHTS := Weights(1.0, 0.6, 0.8, 0.4, 0.15, 0.1)

  function Proposal(text: string, s: Source, personal: bool, popularity: real): Candidate {
    Candidate(text, "", s, "", "", personal, true, false, popularity)
  }

  /** Two popular queries, a personal history entry and a document, under the shipped weights and any folding
      that keeps the four texts apart: with two slots the history entry is promoted and evicted again. */
  lemma HistoryLosesItsSlot(fold: Folding, cands: seq<Candidate>, ranked: seq<Scored>)
    requires cands == [Proposal("a", Query, false, 10.0), Proposal("b", Query, false, 9.0),
                       Proposal("c", History, true, 1.0), Proposal("d", Doc, false, 5.0)]
    requires DistinctTexts(fold, cands)
    requires Ranks(fold, BestOf(fold, cands, MaxPop(cands, Query), MaxPop(cands, Doc), DEFAULT_WEIGHTS), ranked)
    ensures HasClass(ranked, History) && HasClass(ranked, Doc) && !HasClass(Reserved(fold, ranked, 2), History)
  {
    FourMaxima(cands);
    var scored := Map(ScoreOf(10.0, 5.0, DEFAULT_WEIGHTS), cands);
    FourScores(cands, scored);
    hide MaxPop, BlendScore, BestOf, Reserved, HasClass, Ranks, DistinctTexts;
    assert forall i, j :: 0 <= i < j < 4 ==> scored[i].score > scored[j].score && scored[i].cand.exactPrefix && scored[j].cand.exactPrefix;
    OnlyRanking(fold, cands, scored, ranked);
    LateHistoryIsEvicted(fold, ranked);
  }

  lemma OnlyRanking(fold: Folding, cands: seq<Candidate>, scored: seq<Scored>, ranked: seq<Scored>)
    requires DistinctTexts(fold, cands) && scored == Map(ScoreOf(10.0, 5.0, DEFAULT_WEIGHTS), cands)
    requires forall i, j :: 0 <= i < j < |scored| ==> scored[i].score > scored[j].score && scored[i].cand.exactPrefix && scored[j].cand.exactPrefix
    requires Ranks(fold, BestOf(fold, cands, 10.0, 5.0, DEFAULT_WEIGHTS), ranked)
    ensures ranked == scored
  {
    SortedFromPairs(Better(fold.lower), scored);
    DistinctRanking(fold, cands, 10.0, 5.0, DEFAULT_WEIGHTS);
    assert Separates(Better(fold.lower), scored);
    hide Ranks, BestOf;
    RankingUniqueIff(fold, BestOf(fold, cands, 10.0, 5.0, DEFAULT_WEIGHTS), scored);
  }

  lemma FourMaxima(cands: seq<Candidate>)
    requires cands == [Proposal("a", Query, false, 10.0), Proposal("b", Query, false, 9.0),
                       Proposal("c", History, true, 1.0), Proposal("d", Doc, false, 5.0)]
    ensures MaxPop(cands, Query) == 10.0 && MaxPop(cands, Doc) == 5.0
  {
    MaxPopIsLargest(cands, Query);
    MaxPopIsLargest(cands, Doc);
    hide MaxPop;
    assert cands[0] in cands && cands[3] in cands;
  }

  lemma FourScores(cands: seq<Candidate>, scored: seq<Scored>)
    requires cands == [Proposal("a", Query, false, 10.0), Proposal("b", Query, false, 9.0),
                       Proposal("c", History, true, 1.0), Proposal("d", Doc, false, 5.0)]
    requires scored == Map(ScoreOf(10.0, 5.0, DEFAULT_WEIGHTS), cands)
    ensures forall i :: 0 <= i < 4 ==> scored[i].cand == cands[i]
    ensures scored[0].score == 1.598 && scored[1].score == 1.498 && scored[2].score == 1.398 && scored[3].score == 0.998
  {
    forall i | 0 <= i < 4 ensures scored[i] == Scored(cands[i], BlendScore(cands[i], 10.0, 5.0, DEFAULT_WEIGHTS)) {
      assert scored[i] == ScoreOf(10.0, 5.0, DEFAULT_WEIGHTS)(cands[i]);
    }
  }

  // ----- when the served list is determined -----

  /** Who competes for the last slot when item t leads those behind the head: one class, documents but t, or t
      alone. */
  predicate InPool(head: seq<Scored>, tail: seq<Scored>, t: Scored, y: Scored) {
    if HasClass(head, History) && HasClass(head, Doc) then y == t
    else if HasClass(head, History) then (if HasClass(tail, Doc) then y.cand.source == Doc else y == t)
    else if HasClass(head, Doc) then (if HasClass(tail, History) then y.cand.source == History else y == t)
    else if HasClass(tail, History) then (if OtherDoc(tail, t) then y.cand.source == Doc && y != t else y.cand.source == History)
    else if HasClass(tail, Doc) then y.cand.source == Doc else y == t
  }

  predicate OtherDoc(tail: seq<Scored>, t: Scored) {
    exists i :: 0 <= i < |tail| && tail[i].cand.source == Doc && tail[i] != t
  }

  /** Nothing ties with an item of the head. */
  predicate HeadFixed(fold: Folding, ranked: seq<Scored>, limit: nat) {
    forall i, j :: 0 <= i < limit - 1 && i < j < |ranked| ==> Better(fold.lower)(ranked[i], ranked[j])
  }

  /** t may lead the tail, and z may then be the first of its pool. */
  ghost predicate MayBeLast(fold: Folding, head: seq<Scored>, tail: seq<Scored>, t: Scored, z: Scored) {
    && t in tail && z in tail && InPool(head, tail, t, z)
    && (forall y :: y in tail ==> !Better(fold.lower)(y, t))
    && (forall y :: y in tail && InPool(head, tail, t, y) ==> !Better(fold.lower)(y, z))
  }

  /** No tie decides what is served: with a slot for everyone there is none; otherwise none reaches the head, and
      whichever tied item leads the rest, the same item is the best of those competing for the last slot. */
  ghost predicate ServedFixed(fold: Folding, ranked: seq<Scored>, limit: nat)
    requires limit > 0
  {
    if |ranked| <= limit then Separates(Better(fold.lower), ranked)
    else
      && HeadFixed(fold, ranked, limit)
      && OnlyLast(fold, ranked[..limit - 1], ranked[limit - 1..], ranked[LastSlot(ranked, limit)])
  }

  ghost predicate OnlyLast(fold: Folding, head: seq<Scored>, tail: seq<Scored>, last: Scored) {
    forall t, z :: MayBeLast(fold, head, tail, t, z) ==> z == last
  }

  /** The served list is the head and the first item behind it of the pool its leader leaves. */
  lemma ReservedIsWindow(fold: Folding, ranked: seq<Scored>, limit: nat)
    requires 0 < limit < |ranked| && Sorted(Better(fold.lower), ranked)
    ensures Reserved(fold, ranked, limit) == Window(ranked, limit, LastSlot(ranked, limit))
  {
    hide LastSlot, Better;
    var x := LastSlot(ranked, limit);
    var window := Window(ranked, limit, x);
    forall i, j | 0 <= i < j < |window| ensures !Better(fold.lower)(window[j], window[i]) {
      SortedAt(Better(fold.lower), ranked, i, if j == limit - 1 then x else j);
    }
    SortedFromPairs(Better(fold.lower), window);
    SortedIsFixed(Better(fold.lower), window);
  }

  lemma {:induction false} FirstAtFacts(ranked: seq<Scored>, from: nat, s: Source)
    requires from <= |ranked|
    ensures var r := FirstAt(ranked, from, s);
            && (r.Some? ==> from <= r.value < |ranked| && ranked[r.value].cand.source == s)
            && forall p :: from <= p < (if r.Some? then r.value else |ranked|) ==> ranked[p].cand.source != s
    decreases |ranked| - from
  {
    if from < |ranked| && ranked[from].cand.source != s {
      FirstAtFacts(ranked, from + 1, s);
    }
  }

  /** A class is in the tail: at its lead, or further on. */
  lemma TailClass(ranked: seq<Scored>, limit: nat, s: Source)
    requires 0 < limit < |ranked|
    ensures HasClass(ranked[limit - 1..], s) <==> ranked[limit - 1].cand.source == s || FirstAt(ranked, limit, s).Some?
    ensures OtherDoc(ranked[limit - 1..], ranked[limit - 1]) ==> FirstAt(ranked, limit, Doc).Some?
  {
    var tail, r := ranked[limit - 1..], FirstAt(ranked, limit, s);
    FirstAtFacts(ranked, limit, s);
    FirstAtFacts(ranked, limit, Doc);
    if i :| 0 <= i < |tail| && tail[i].cand.source == s { assert ranked[limit - 1 + i].cand.source == s; }
    assert tail[0] == ranked[limit - 1];
    if r.Some? { assert tail[r.value - (limit - 1)].cand.source == s; }
    if i :| 0 <= i < |tail| && tail[i].cand.source == Doc && tail[i] != tail[0] { assert ranked[limit - 1 + i].cand.source == Doc; }
  }

  lemma NoTwins(fold: Folding, best: map<string, Scored>, b: seq<Scored>)
    requires Ranks(fold, best, b)
    ensures NoDup(b)
  {
    hide Sorted;
    forall i, j | 0 <= i < j < |b| ensures b[i] != b[j] {
      assert KeyOf(fold, b[i]) != KeyOf(fold, b[j]);
    }
  }

  lemma LastIsFirstOfPool(fold: Folding, ranked: seq<Scored>, limit: nat)
    requires 0 < limit < |ranked| && NoDup(ranked)
    ensures var head, tail, x := ranked[..limit - 1], ranked[limit - 1..], LastSlot(ranked, limit);
            && InPool(head, tail, tail[0], ranked[x])
            && forall p :: limit - 1 <= p < x ==> !InPool(head, tail, tail[0], ranked[p])
  {
    SlotClasses(fold, ranked, limit);
    TailClass(ranked, limit, History);
    TailClass(ranked, limit, Doc);
    FirstAtFacts(ranked, limit, History);
    FirstAtFacts(ranked, limit, Doc);
    var head, tail, d := ranked[..limit - 1], ranked[limit - 1..], FirstAt(ranked, limit, Doc);
    assert tail[0] == ranked[limit - 1];
    assert OtherDoc(tail, tail[0]) <==> d.Some? by {
      if d.Some? { assert tail[d.value - (limit - 1)] == ranked[d.value] != ranked[limit - 1]; }
    }
    hide HasClass, OtherDoc, FirstAt, Reserved, Ensured, LastSlot;
  }

  /** Whatever ranking is served, its last item may be last. */
  lemma LastMayBeLast(fold: Folding, best: map<string, Scored>, b: seq<Scored>, limit: nat)
    requires Ranks(fold, best, b) && 0 < limit < |b|
    ensures MayBeLast(fold, b[..limit - 1], b[limit - 1..], b[limit - 1], b[LastSlot(b, limit)])
  {
    var head, tail, x := b[..limit - 1], b[limit - 1..], LastSlot(b, limit);
    hide InPool, Better, LastSlot, KeyOf, Sorted, NoDup;
    NoTwins(fold, best, b);
    LastIsFirstOfPool(fold, b, limit);
    assert tail[0] == b[limit - 1] && tail[x - (limit - 1)] == b[x];
    NoneBetterBehind(fold, b, limit - 1);
    NoneBetterBehind(fold, b, x);
    forall y | y in tail && InPool(head, tail, tail[0], y) ensures y in b[x..] {
      var p :| 0 <= p < |tail| && tail[p] == y;
      assert b[limit - 1 + p] == y;
      assert b[x..][limit - 1 + p - x] == y;
    }
  }

  lemma NoneBetterBehind(fold: Folding, b: seq<Scored>, i: nat)
    requires Sorted(Better(fold.lower), b) && i < |b|
    ensures forall y :: y in b[i..] ==> !Better(fold.lower)(y, b[i])
  {
    BetterIsWeak(fold.lower);
    hide Better, Sorted;
    forall y | y in b[i..] ensures !Better(fold.lower)(y, b[i]) {
      var p :| 0 <= p < |b[i..]| && b[i..][p] == y;
      if p > 0 { SortedAt(Better(fold.lower), b, i, i + p); }
    }
  }

  /** Rankings share a head nothing ties with. */
  lemma {:induction false} HeadShared<T(!new)>(before: (T, T) -> bool, a: seq<T>, b: seq<T>, n: nat)
    requires StrictWeak(before) && Sorted(before, a) && Sorted(before, b) && multiset(a) == multiset(b) && n <= |a|
    requires forall i, j :: 0 <= i < n && i < j < |a| ==> before(a[i], a[j])
    ensures n <= |b| && a[..n] == b[..n] && multiset(a[n..]) == multiset(b[n..])
  {
    SameElements(a, b);
    if n == 0 {
      assert a[0..] == a && b[0..] == b;
    } else {
      hide Sorted, StrictWeak;
      LeaderShared(before, a, b);
      TailElements(a);
      TailElements(b);
      SortedTail(before, a);
      SortedTail(before, b);
      StrictTail(before, a, n);
      HeadShared(before, a[1..], b[1..], n - 1);
      Rejoined(a, n);
      Rejoined(b, n);
    }
  }

  lemma StrictTail<T>(before: (T, T) -> bool, a: seq<T>, n: nat)
    requires 0 < n <= |a| && forall i, j :: 0 <= i < n && i < j < |a| ==> before(a[i], a[j])
    ensures forall i, j :: 0 <= i < n - 1 && i < j < |a[1..]| ==> before(a[1..][i], a[1..][j])
  {
    forall i, j | 0 <= i < n - 1 && i < j < |a[1..]| ensures before(a[1..][i], a[1..][j]) {
      assert before(a[i + 1], a[j + 1]);
    }
  }

  lemma Rejoined<T>(a: seq<T>, n: nat)
    requires 0 < n <= |a|
    ensures a[..n] == [a[0]] + a[1..][..n - 1] && a[n..] == a[1..][n - 1..]
  {
  }

  lemma LeaderShared<T(!new)>(before: (T, T) -> bool, a: seq<T>, b: seq<T>)
    requires StrictWeak(before) && Sorted(before, b) && a != [] && |a| == |b| && forall x :: x in a <==> x in b
    requires forall j :: 0 < j < |a| ==> before(a[0], a[j])
    ensures a[0] == b[0]
  {
    hide Sorted;
    if a[0] != b[0] {
      assert b[0] in a && a[0] in b;
      var j :| 0 <= j < |a| && a[j] == b[0];
      var i :| 0 <= i < |b| && b[i] == a[0];
      assert 0 < i && before(a[0], a[j]);
      SortedAt(before, b, 0, i);
    }
  }

  // ----- moving a tied item forward -----

  /** A tied item may come before its predecessor. */
  lemma SwapTied(fold: Folding, best: map<string, Scored>, a: seq<Scored>, i: nat) returns (b: seq<Scored>)
    requires Ranks(fold, best, a) && i + 1 < |a| && !Better(fold.lower)(a[i], a[i + 1])
    ensures Ranks(fold, best, b) && |b| == |a| && b[i] == a[i + 1] != a[i] && b == a[i := a[i + 1]][i + 1 := a[i]]
  {
    BetterIsWeak(fold.lower);
    var before := Better(fold.lower);
    b := a[i := a[i + 1]][i + 1 := a[i]];
    hide Better, KeyOf;
    forall p, q | 0 <= p < q < |b| ensures !before(b[q], b[p]) {
      if !(p == i && q == i + 1) {
        SortedAt(before, a, Moved(i, p), Moved(i, q));
      }
    }
    SortedFromPairs(before, b);
    forall p, q | 0 <= p < q < |b| ensures KeyOf(fold, b[p]) != KeyOf(fold, b[q]) {
      assert b[p] == a[Moved(i, p)] && b[q] == a[Moved(i, q)];
    }
    assert KeyOf(fold, a[i]) != KeyOf(fold, a[i + 1]);
  }

  /** Item j may come as far forward as the first it ties with. */
  lemma {:induction false} MoveUp(fold: Folding, best: map<string, Scored>, a: seq<Scored>, i: nat, j: nat) returns (b: seq<Scored>)
    requires Ranks(fold, best, a) && i <= j < |a| && !Better(fold.lower)(a[i], a[j])
    ensures Ranks(fold, best, b) && |b| == |a| && b[i] == a[j] && b[..i] == a[..i]
    ensures multiset(b[i..]) == multiset(a[i..])
    decreases j - i
  {
    if i == j {
      b := a;
    } else {
      BetterIsWeak(fold.lower);
      SortedAt(Better(fold.lower), a, i, j);
      if i < j - 1 { SortedAt(Better(fold.lower), a, i, j - 1); }
      hide Better, Ranks;
      var c := SwapTied(fold, best, a, j - 1);
      b := MoveUp(fold, best, c, i, j - 1);
      SwapElements(a, c, i, j - 1);
    }
  }

  lemma SwapElements(a: seq<Scored>, c: seq<Scored>, i: nat, k: nat)
    requires i <= k && k + 1 < |a| && c == a[k := a[k + 1]][k + 1 := a[k]]
    ensures c[..i] == a[..i] && multiset(c[i..]) == multiset(a[i..])
  {
    Around(a, i, k);
    Around(c, i, k);
    assert c[i..k] == a[i..k] && c[k + 2..] == a[k + 2..];
  }

  lemma Around(a: seq<Scored>, i: nat, k: nat)
    requires i <= k && k + 1 < |a|
    ensures multiset(a[i..]) == multiset(a[i..k]) + multiset{a[k], a[k + 1]} + multiset(a[k + 2..])
  {
    assert a[i..] == a[i..k] + ([a[k], a[k + 1]] + a[k + 2..]);
  }

  /** Pools and leaders are the same for every order of the tail. */
  lemma SameTail(fold: Folding, head: seq<Scored>, a: seq<Scored>, b: seq<Scored>, t: Scored, z: Scored)
    requires multiset(a) == multiset(b)
    ensures MayBeLast(fold, head, a, t, z) <==> MayBeLast(fold, head, b, t, z)
    ensures forall y :: InPool(head, a, t, y) <==> InPool(head, b, t, y)
  {
    SameElements(a, b);
    SameClass(a, b, History);
    SameClass(a, b, Doc);
    assert OtherDoc(a, t) <==> OtherDoc(b, t) by {
      if i :| 0 <= i < |a| && a[i].cand.source == Doc && a[i] != t { assert a[i] in b; }
      if i :| 0 <= i < |b| && b[i].cand.source == Doc && b[i] != t { assert b[i] in a; }
    }
    hide HasClass, OtherDoc, Better;
  }

  /** Whoever may be last leads its pool in some ranking of the same head. */
  lemma LastComesLast(fold: Folding, best: map<string, Scored>, a: seq<Scored>, limit: nat, t: Scored, z: Scored)
    returns (b: seq<Scored>)
    requires Ranks(fold, best, a) && 0 < limit < |a| && MayBeLast(fold, a[..limit - 1], a[limit - 1..], t, z)
    requires z == t || !InPool(a[..limit - 1], a[limit - 1..], t, t)
    ensures Ranks(fold, best, b) && b[..limit - 1] == a[..limit - 1] && b[LastSlot(b, limit)] == z
  {
    hide InPool, Better, Ranks, LastSlot;
    var head := a[..limit - 1];
    var c := Lead(fold, best, a, limit, t, z);
    if z == t {
      b := c;
    } else {
      b := Second(fold, best, c, limit, z);
      assert b[..limit - 1] == b[..limit][..limit - 1] && c[..limit - 1] == c[..limit][..limit - 1];
      assert b[limit - 1] == b[..limit][limit - 1] == c[..limit][limit - 1] == t;
      SameTail(fold, head, c[limit - 1..], b[limit - 1..], t, z);
    }
    LeadsPool(fold, best, b, limit, z);
  }

  /** t leads the tail. */
  lemma Lead(fold: Folding, best: map<string, Scored>, a: seq<Scored>, limit: nat, t: Scored, z: Scored) returns (c: seq<Scored>)
    requires Ranks(fold, best, a) && 0 < limit < |a| && MayBeLast(fold, a[..limit - 1], a[limit - 1..], t, z)
    ensures Ranks(fold, best, c) && |c| == |a| && c[..limit - 1] == a[..limit - 1] && c[limit - 1] == t
    ensures MayBeLast(fold, c[..limit - 1], c[limit - 1..], t, z)
    ensures InPool(c[..limit - 1], c[limit - 1..], t, t) <==> InPool(a[..limit - 1], a[limit - 1..], t, t)
  {
    hide InPool, Better, Ranks;
    var tail := a[limit - 1..];
    var j :| 0 <= j < |tail| && tail[j] == t;
    assert a[limit - 1] == tail[0] && a[limit - 1] in tail;
    c := MoveUp(fold, best, a, limit - 1, limit - 1 + j);
    SameTail(fold, a[..limit - 1], tail, c[limit - 1..], t, z);
  }

  /** z comes first of those it ties with behind the leader. */
  lemma Second(fold: Folding, best: map<string, Scored>, c: seq<Scored>, limit: nat, z: Scored) returns (b: seq<Scored>)
    requires Ranks(fold, best, c) && 0 < limit < |c| && z in c[limit - 1..] && z != c[limit - 1]
    ensures Ranks(fold, best, b) && |b| == |c| && b[..limit] == c[..limit] && multiset(b[limit - 1..]) == multiset(c[limit - 1..])
    ensures exists p :: limit <= p < |b| && b[p] == z && forall q :: limit <= q < p ==> Better(fold.lower)(b[q], z)
  {
    hide Better, Ranks;
    var j :| 0 <= j < |c[limit - 1..]| && c[limit - 1..][j] == z;
    var k := limit - 1 + j;
    var p := limit;
    while p < k && Better(fold.lower)(c[p], z)
      invariant limit <= p <= k && forall q :: limit <= q < p ==> Better(fold.lower)(c[q], z)
    {
      p := p + 1;
    }
    assert !Better(fold.lower)(c[p], c[k]) by { BetterIsWeak(fold.lower); }
    b := MoveUp(fold, best, c, p, k);
    assert b[..p][..limit] == b[..limit] && c[..p][..limit] == c[..limit];
    forall q | limit <= q < p ensures b[q] == c[q] { assert b[..p][q] == c[..p][q]; }
    assert b[limit - 1..] == b[limit - 1..p] + b[p..] && c[limit - 1..] == c[limit - 1..p] + c[p..];
    assert b[limit - 1..p] == b[..p][limit - 1..] && c[limit - 1..p] == c[..p][limit - 1..];
  }

  lemma LeadsPool(fold: Folding, best: map<string, Scored>, b: seq<Scored>, limit: nat, z: Scored)
    requires Ranks(fold, best, b) && 0 < limit < |b| && MayBeLast(fold, b[..limit - 1], b[limit - 1..], b[limit - 1], z)
    requires z == b[limit - 1] || (
      && !InPool(b[..limit - 1], b[limit - 1..], b[limit - 1], b[limit - 1])
      && exists p :: limit <= p < |b| && b[p] == z && forall q :: limit <= q < p ==> Better(fold.lower)(b[q], z))
    ensures b[LastSlot(b, limit)] == z
  {
    hide InPool, Better, LastSlot, KeyOf, Sorted, NoDup;
    NoTwins(fold, best, b);
    LastIsFirstOfPool(fold, b, limit);
    var head, tail, x := b[..limit - 1], b[limit - 1..], LastSlot(b, limit);
    assert tail[0] == b[limit - 1];
    if z != b[limit - 1] {
      var p :| limit <= p < |b| && b[p] == z && forall q :: limit <= q < p ==> Better(fold.lower)(b[q], z);
      assert x <= p;
    }
  }

  /** A leader that itself competes hands its pool to whoever may be last. */
  lemma ZLeads(fold: Folding, head: seq<Scored>, tail: seq<Scored>, t: Scored, z: Scored)
    requires MayBeLast(fold, head, tail, t, z) && InPool(head, tail, t, t)
    ensures MayBeLast(fold, head, tail, z, z)
  {
    var i :| 0 <= i < |tail| && tail[i] == z;
    var j :| 0 <= j < |tail| && tail[j] == t;
    assert HasClass(tail, z.cand.source) && HasClass(tail, t.cand.source);
    BetterIsWeak(fold.lower);
    forall y | y in tail ensures !Better(fold.lower)(y, z) { assert !Better(fold.lower)(y, t) && !Better(fold.lower)(t, z); }
    assert InPool(head, tail, z, z);
  }

  /** The served list is the same for every map order exactly when no tie decides it. */
  lemma ServedDeterminedIff(fold: Folding, best: map<string, Scored>, a: seq<Scored>, limit: nat)
    requires limit > 0 && Ranks(fold, best, a)
    ensures (forall b :: Ranks(fold, best, b) ==> Map(Suggest, Reserved(fold, b, limit)) == Map(Suggest, Reserved(fold, a, limit)))
       <==> ServedFixed(fold, a, limit)
  {
    hide Ranks, Reserved, ServedFixed;
    if ServedFixed(fold, a, limit) {
      forall b | Ranks(fold, best, b) ensures Reserved(fold, b, limit) == Reserved(fold, a, limit) {
        FixedIsServed(fold, best, a, b, limit);
      }
    } else {
      var b := AnotherIsServed(fold, best, a, limit);
    }
  }

  lemma FixedIsServed(fold: Folding, best: map<string, Scored>, a: seq<Scored>, b: seq<Scored>, limit: nat)
    requires limit > 0 && Ranks(fold, best, a) && Ranks(fold, best, b) && ServedFixed(fold, a, limit)
    ensures Reserved(fold, b, limit) == Reserved(fold, a, limit)
  {
    hide Better, KeyOf, LastSlot, OnlyLast, HeadFixed, Reserved, Sorted;
    if |a| <= limit {
      RankingUniqueIff(fold, best, a);
    } else {
      ReservedIsWindow(fold, a, limit);
      ReservedIsWindow(fold, b, limit);
      FixedHead(fold, best, a, b, limit);
      FixedLast(fold, best, a, b, limit);
    }
  }

  lemma FixedHead(fold: Folding, best: map<string, Scored>, a: seq<Scored>, b: seq<Scored>, limit: nat)
    requires 0 < limit < |a| && Ranks(fold, best, a) && Ranks(fold, best, b) && HeadFixed(fold, a, limit)
    ensures |b| == |a| && a[..limit - 1] == b[..limit - 1] && multiset(a[limit - 1..]) == multiset(b[limit - 1..])
  {
    hide Better, KeyOf, Sorted, StrictWeak;
    SamePermutation(fold, best, a, b);
    BetterIsWeak(fold.lower);
    HeadShared(Better(fold.lower), a, b, limit - 1);
  }

  lemma FixedLast(fold: Folding, best: map<string, Scored>, a: seq<Scored>, b: seq<Scored>, limit: nat)
    requires 0 < limit < |a| == |b| && Ranks(fold, best, b)
    requires a[..limit - 1] == b[..limit - 1] && multiset(a[limit - 1..]) == multiset(b[limit - 1..])
    requires OnlyLast(fold, a[..limit - 1], a[limit - 1..], a[LastSlot(a, limit)])
    ensures a[LastSlot(a, limit)] == b[LastSlot(b, limit)]
  {
    hide Ranks, LastSlot, MayBeLast, InPool;
    LastMayBeLast(fold, best, b, limit);
    SameTail(fold, a[..limit - 1], a[limit - 1..], b[limit - 1..], b[limit - 1], b[LastSlot(b, limit)]);
  }

  lemma AnotherIsServed(fold: Folding, best: map<string, Scored>, a: seq<Scored>, limit: nat) returns (b: seq<Scored>)
    requires limit > 0 && Ranks(fold, best, a) && !ServedFixed(fold, a, limit)
    ensures Ranks(fold, best, b) && Map(Suggest, Reserved(fold, b, limit)) != Map(Suggest, Reserved(fold, a, limit))
  {
    if |a| <= limit {
      RankingUniqueIff(fold, best, a);
      b :| Ranks(fold, best, b) && b != a;
      DifferentRankingsShow(fold, best, a, b);
    } else if !HeadFixed(fold, a, limit) {
      b := TiedHeadShows(fold, best, a, limit);
    } else {
      var t, z :| MayBeLast(fold, a[..limit - 1], a[limit - 1..], t, z) && z != a[LastSlot(a, limit)];
      b := OtherLastShows(fold, best, a, limit, t, z);
    }
  }

  lemma TiedHeadShows(fold: Folding, best: map<string, Scored>, a: seq<Scored>, limit: nat) returns (b: seq<Scored>)
    requires 0 < limit < |a| && Ranks(fold, best, a) && !HeadFixed(fold, a, limit)
    ensures Ranks(fold, best, b) && Map(Suggest, Reserved(fold, b, limit)) != Map(Suggest, Reserved(fold, a, limit))
  {
    hide Better, LastSlot;
    var i: nat, j: nat :| 0 <= i < limit - 1 && i < j < |a| && !Better(fold.lower)(a[i], a[j]);
    BetterIsWeak(fold.lower);
    if i + 1 < j { SortedAt(Better(fold.lower), a, i + 1, j); }
    b := SwapTied(fold, best, a, i);
    ReservedIsWindow(fold, a, limit);
    ReservedIsWindow(fold, b, limit);
    hide Ranks, Reserved;
    KeysDiffer(fold, best, a, i);
    assert Map(Suggest, Reserved(fold, a, limit))[i] == Suggest(a[i]);
    assert Map(Suggest, Reserved(fold, b, limit))[i] == Suggest(a[i + 1]);
  }

  lemma KeysDiffer(fold: Folding, best: map<string, Scored>, a: seq<Scored>, i: nat)
    requires Ranks(fold, best, a) && i + 1 < |a|
    ensures Suggest(a[i]) != Suggest(a[i + 1])
  {
    hide Sorted;
    assert KeyOf(fold, a[i]) != KeyOf(fold, a[i + 1]);
  }

  lemma OtherLastShows(fold: Folding, best: map<string, Scored>, a: seq<Scored>, limit: nat, t: Scored, z: Scored)
    returns (b: seq<Scored>)
    requires 0 < limit < |a| && Ranks(fold, best, a)
    requires MayBeLast(fold, a[..limit - 1], a[limit - 1..], t, z) && z != a[LastSlot(a, limit)]
    ensures Ranks(fold, best, b) && Map(Suggest, Reserved(fold, b, limit)) != Map(Suggest, Reserved(fold, a, limit))
  {
    hide LastSlot, InPool, Better;
    if InPool(a[..limit - 1], a[limit - 1..], t, t) {
      ZLeads(fold, a[..limit - 1], a[limit - 1..], t, z);
      b := LastComesLast(fold, best, a, limit, z, z);
    } else {
      b := LastComesLast(fold, best, a, limit, t, z);
    }
    ReservedIsWindow(fold, a, limit);
    ReservedIsWindow(fold, b, limit);
    var x := LastSlot(a, limit);
    var k :| 0 <= k < |a[limit - 1..]| && a[limit - 1..][k] == z;
    assert KeyOf(fold, a[x]) != KeyOf(fold, a[limit - 1 + k]);
    assert Map(Suggest, Reserved(fold, a, limit))[limit - 1] == Suggest(a[x]);
    assert Map(Suggest, Reserved(fold, b, limit))[limit - 1] == Suggest(z);
  }

  lemma DifferentRankingsShow(fold: Folding, best: map<string, Scored>, a: seq<Scored>, b: seq<Scored>)
    requires Ranks(fold, best, a) && Ranks(fold, best, b) && a != b
    ensures Map(Suggest, a) != Map(Suggest, b)
  {
    hide Sorted;
    var i :| 0 <= i < |a| && a[i] != b[i];
    assert KeyOf(fold, a[i]) != KeyOf(fold, b[i]);
    assert Map(Suggest, a)[i].text != Map(Suggest, b)[i].text;
  }

  /** Two texts of one lower-case form but different keys, equally popular: map order decides which is served. */
  lemma TiedTextsShowMapOrder(fold: Folding, x: string, y: string, w: Weights)
    requires fold.key(x) != "" && fold.key(y) != "" && fold.key(x) != fold.key(y)
    requires fold.lower(x) == fold.lower(y) && |x| == |y|
    ensures var cands := [Proposal(x, Query, false, 1.0), Proposal(y, Query, false, 1.0)];
            exists best, a, b ::
              && best == BestOf(fold, cands, MaxPop(cands, Query), MaxPop(cands, Doc), w)
              && Ranks(fold, best, a) && Ranks(fold, best, b)
              && Map(Suggest, Reserved(fold, a, 2)) != Map(Suggest, Reserved(fold, b, 2))
  {
    var cands := [Proposal(x, Query, false, 1.0), Proposal(y, Query, false, 1.0)];
    var mq, md := MaxPop(cands, Query), MaxPop(cands, Doc);
    var scored, best := Map(ScoreOf(mq, md, w), cands), BestOf(fold, cands, mq, md, w);
    assert scored[0] == ScoreOf(mq, md, w)(cands[0]) && scored[1] == ScoreOf(mq, md, w)(cands[1]);
    assert scored[0].score == scored[1].score;
    LessTrichotomy(fold.lower(x), fold.lower(x));
    hide MaxPop, BlendScore, BestOf, Less;
    SortedFromPairs(Better(fold.lower), scored);
    DistinctRanking(fold, cands, mq, md, w);
    DistinctBest(fold, cands, mq, md, w);
    assert scored[0] in scored && scored[1] in scored && scored[0] != scored[1];
    assert !Separates(Better(fold.lower), scored);
    ServedDeterminedIff(fold, best, scored, 2);
  }
}
