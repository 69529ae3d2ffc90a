/** Paging over the advanced search's bounded recall window. */
module RecallPaging {
  import opened Sorting
  import opened TextOrder

  const RECALL_LIMIT := 500
  const MAX_RECALL_LIMIT := 2000
  const DEFAULT_LIMIT := 20
  const MAX_LIMIT := 200
  const MAX_INT := 0x7FFF_FFFF_FFFF_FFFF

  /** A 64-bit signed integer. */
  type Int64 = x: int | -MAX_INT - 1 <= x <= MAX_INT

  /** 64-bit addition wraps around. */
  function Plus(a: Int64, b: Int64): Int64 {
    if a + b > MAX_INT then a + b - 0x1_0000_0000_0000_0000
    else if a + b < -MAX_INT - 1 then a + b + 0x1_0000_0000_0000_0000
    else a + b
  }

  function Limit(v: Int64): Int64 {
    if v <= 0 then DEFAULT_LIMIT else if v > MAX_LIMIT then MAX_LIMIT else v
  }

  function Offset(v: Int64): Int64 {
    if v < 0 then 0 else v
  }

  function RecallWindow(offset: Int64, limit: Int64): Int64 {
    var want := Plus(offset, limit);
    if want <= RECALL_LIMIT then RECALL_LIMIT
    else if want >= MAX_RECALL_LIMIT then MAX_RECALL_LIMIT
    else (want + RECALL_LIMIT - 1) / RECALL_LIMIT * RECALL_LIMIT
  }

  /** The smallest whole number of blocks covering the page, up to the ceiling. */
  lemma WindowCoversPage(offset: Int64, limit: Int64)
    requires 0 <= offset && 0 < limit <= MAX_LIMIT && offset + limit <= MAX_INT
    ensures var w := RecallWindow(offset, limit);
            && w % RECALL_LIMIT == 0 && RECALL_LIMIT <= w <= MAX_RECALL_LIMIT
            && (offset + limit <= w || w == MAX_RECALL_LIMIT)
            && (w > RECALL_LIMIT ==> w - RECALL_LIMIT < offset + limit)
  {
  }

  datatype Response = Response(ids: seq<string>, total: nat, totalIsLowerBound: bool, hasMore: bool)

  /** The rows of a recall of at most n. */
  function Recall(matches: seq<string>, n: nat): seq<string> {
    if |matches| <= n then matches else matches[..n]
  }

  type Ranker = seq<string> -> seq<string>

  /** A ranker reorders its candidates. */
  ghost predicate Permuting(rank: Ranker) {
    forall rows :: multiset(rank(rows)) == multiset(rows)
  }

  lemma RankKeepsSize(rank: Ranker, rows: seq<string>)
    requires Permuting(rank)
    ensures |rank(rows)| == |rows|
  {
    SameElements(rank(rows), rows);
  }

  function Slice(s: seq<string>, offset: nat, limit: nat): seq<string> {
    if offset >= |s| then [] else if offset + limit >= |s| then s[offset..] else s[offset..offset + limit]
  }

  lemma SliceGrows(s: seq<string>, offset: nat, n: nat)
    requires offset + n < |s|
    ensures Slice(s, offset, n + 1) == Slice(s, offset, n) + [s[offset + n]]
  {
    assert s[offset..offset + n + 1] == s[offset..offset + n] + [s[offset + n]];
    assert offset + n + 1 == |s| ==> s[offset..] == s[offset..offset + n + 1];
  }

  lemma SliceEnds(s: seq<string>, offset: nat, n: nat, limit: nat)
    requires offset + n >= |s| || n == limit
    requires n <= limit
    ensures Slice(s, offset, n) == Slice(s, offset, limit)
  {
  }

  /** What the page at an offset serves, for clamped arguments. */
  function Page(matches: seq<string>, rank: Ranker, offset: Int64, limit: Int64): Response
    requires 0 <= offset && 0 < limit <= MAX_LIMIT
  {
    var window := RecallWindow(offset, limit);
    var truncated := |matches| > window;
    var ranked := rank(Recall(matches, window));
    var hits := Slice(ranked, offset, limit);
    Response(hits, |Recall(matches, window)|, truncated,
             offset + |hits| < |ranked| || (truncated && window < MAX_RECALL_LIMIT))
  }

  /** matches lists the candidates in recall order. */
  method SearchAdvanced(matches: seq<string>, rank: Ranker, reqOffset: Int64, reqLimit: Int64) returns (resp: Response)
    requires Permuting(rank)
    ensures resp == Page(matches, rank, Offset(reqOffset), Limit(reqLimit))
  {
    var offset, limit := Offset(reqOffset), Limit(reqLimit);
    var window := RecallWindow(offset, limit);
    var rows := Recall(matches, window + 1);
    var truncated := |rows| > window;
    if truncated {
      rows := rows[..window];
    }
    assert rows == Recall(matches, window);
    RankKeepsSize(rank, rows);
    if rows == [] {
      return Response([], 0, truncated, false);
    }
    var ranked := rank(rows);
    var hits: seq<string> := [];
    var i: int := offset;
    while i < |ranked| && |hits| < limit
      invariant offset <= i && i == offset + |hits| && |hits| <= limit
      invariant hits == Slice(ranked, offset, |hits|)
      decreases |ranked| - i
    {
      SliceGrows(ranked, offset, |hits|);
      hits := hits + [ranked[i]];
      i := i + 1;
    }
    SliceEnds(ranked, offset, |hits|, limit);
    resp := Response(hits, |rows|, truncated, offset + |hits| < |ranked| || (truncated && window < MAX_RECALL_LIMIT));
  }

  // ----- has_more -----

  /** How many results the ceiling lets a client reach. */
  function Reachable(matches: seq<string>): nat {
    if |matches| < MAX_RECALL_LIMIT then |matches| else MAX_RECALL_LIMIT
  }

  lemma PageSize(matches: seq<string>, rank: Ranker, offset: Int64, limit: Int64)
    requires Permuting(rank) && 0 <= offset && 0 < limit <= MAX_LIMIT && offset + limit <= MAX_INT
    ensures var n := Reachable(matches) - offset;
            |Page(matches, rank, offset, limit).ids| == if n <= 0 then 0 else if n < limit then n else limit
    ensures Page(matches, rank, offset, limit).hasMore <==> offset + limit < Reachable(matches)
  {
    var window := RecallWindow(offset, limit);
    WindowCoversPage(offset, limit);
    RankKeepsSize(rank, Recall(matches, window));
  }

  /** A following page exists and serves something. */
  predicate NextPageServes(matches: seq<string>, rank: Ranker, offset: Int64, limit: Int64)
    requires 0 <= offset && 0 < limit <= MAX_LIMIT
  {
    offset + limit <= MAX_INT && Page(matches, rank, offset + limit, limit).ids != []
  }

  /** has_more tells the truth about the next page over the same corpus exactly when offset + limit does not
      overflow, or the corpus fits the base block the overflow falls back to. */
  lemma HasMoreExactIff(matches: seq<string>, rank: Ranker, offset: Int64, limit: Int64)
    requires Permuting(rank) && 0 <= offset && 0 < limit <= MAX_LIMIT
    ensures (Page(matches, rank, offset, limit).hasMore <==> NextPageServes(matches, rank, offset, limit))
            <==> offset + limit <= MAX_INT || |matches| <= RECALL_LIMIT
  {
    hide Page;
    if offset + limit <= MAX_INT {
      PageSize(matches, rank, offset, limit);
      if offset + 2 * limit <= MAX_INT {
        PageSize(matches, rank, offset + limit, limit);
      } else {
        OverflowIsEmpty(matches, rank, offset + limit, limit);
      }
    } else {
      OverflowIsEmpty(matches, rank, offset, limit);
    }
  }

  lemma OverflowIsEmpty(matches: seq<string>, rank: Ranker, offset: Int64, limit: Int64)
    requires Permuting(rank) && 0 <= offset && 0 < limit <= MAX_LIMIT && offset + limit > MAX_INT
    ensures Page(matches, rank, offset, limit).ids == []
    ensures Page(matches, rank, offset, limit).hasMore <==> |matches| > RECALL_LIMIT
  {
    RankKeepsSize(rank, Recall(matches, RECALL_LIMIT));
  }

  // ----- walking the pages -----

  /** Everything a client collects by following has_more from an offset. */
  function Walk(matches: seq<string>, rank: Ranker, offset: Int64, limit: Int64): seq<string>
    requires Permuting(rank) && 0 <= offset <= MAX_RECALL_LIMIT && 0 < limit <= MAX_LIMIT
    decreases MAX_RECALL_LIMIT - offset
  {
    var page := Page(matches, rank, offset, limit);
    PageSize(matches, rank, offset, limit);
    if page.hasMore then page.ids + Walk(matches, rank, offset + limit, limit) else page.ids
  }

  /** The walk ends, having served exactly min(matches, 2000) results. */
  lemma {:induction false} WalkServesAll(matches: seq<string>, rank: Ranker, offset: Int64, limit: Int64)
    requires Permuting(rank) && 0 <= offset <= Reachable(matches) && 0 < limit <= MAX_LIMIT
    ensures |Walk(matches, rank, offset, limit)| == Reachable(matches) - offset
    decreases MAX_RECALL_LIMIT - offset
  {
    hide Page;
    PageSize(matches, rank, offset, limit);
    if Page(matches, rank, offset, limit).hasMore {
      WalkServesAll(matches, rank, offset + limit, limit);
    }
  }

  /** Over a corpus of one block the walk serves the ranking itself: every match once, in rank order. */
  lemma {:induction false} SmallCorpusWalk(matches: seq<string>, rank: Ranker, offset: Int64, limit: Int64)
    requires Permuting(rank) && |matches| <= RECALL_LIMIT && 0 <= offset <= |matches| && 0 < limit <= MAX_LIMIT
    ensures |rank(matches)| == |matches| && Walk(matches, rank, offset, limit) == rank(matches)[offset..]
    decreases MAX_RECALL_LIMIT - offset
  {
    RankKeepsSize(rank, matches);
    PageSize(matches, rank, offset, limit);
    SmallCorpusPage(matches, rank, offset, limit);
    hide Page;
    var ranked := rank(matches);
    if Page(matches, rank, offset, limit).hasMore {
      SmallCorpusWalk(matches, rank, offset + limit, limit);
      assert ranked[offset..] == ranked[offset..offset + limit] + ranked[offset + limit..];
    }
  }

  lemma SmallCorpusPage(matches: seq<string>, rank: Ranker, offset: Int64, limit: Int64)
    requires |matches| <= RECALL_LIMIT && 0 <= offset <= |matches| && 0 < limit <= MAX_LIMIT
    ensures Page(matches, rank, offset, limit).ids == Slice(rank(matches), offset, limit)
  {
    WindowCoversPage(offset, limit);
    hide Slice;
  }

  /** Adjacent pages of one window are one slice of its ranking: only a block boundary can reshuffle. */
  lemma AdjacentPagesJoin(matches: seq<string>, rank: Ranker, offset: Int64, limit: Int64)
    requires 0 <= offset && 0 < limit <= MAX_LIMIT && offset + limit <= MAX_INT
    requires RecallWindow(offset, limit) == RecallWindow(offset + limit, limit)
    ensures Page(matches, rank, offset, limit).ids + Page(matches, rank, offset + limit, limit).ids
         == Slice(rank(Recall(matches, RecallWindow(offset, limit))), offset, 2 * limit)
  {
    hide Recall;
    SlicesJoin(rank(Recall(matches, RecallWindow(offset, limit))), offset, limit);
  }

  /** Within one window no match is served twice, by one page or by two that do not overlap. */
  lemma WindowServesOnce(matches: seq<string>, rank: Ranker, a: Int64, b: Int64, limit: Int64)
    requires Permuting(rank) && NoDup(matches) && 0 <= a && 0 < limit <= MAX_LIMIT && a + limit <= b
    requires RecallWindow(a, limit) == RecallWindow(b, limit)
    ensures NoDup(Page(matches, rank, a, limit).ids)
    ensures forall id :: id in Page(matches, rank, a, limit).ids ==> id !in Page(matches, rank, b, limit).ids
  {
    var rows := Recall(matches, RecallWindow(a, limit));
    RankKeepsDistinct(rank, rows);
    hide Recall;
    var ranked := rank(rows);
    SliceAt(ranked, a, limit);
    SliceAt(ranked, b, limit);
  }

  lemma SliceAt(s: seq<string>, offset: nat, limit: nat)
    ensures forall i :: 0 <= i < |Slice(s, offset, limit)| ==>
      offset + i < |s| && i < limit && Slice(s, offset, limit)[i] == s[offset + i]
  {
    var page := Slice(s, offset, limit);
    assert page == [] || page == s[offset..offset + |page|];
  }

  lemma RankKeepsDistinct(rank: Ranker, rows: seq<string>)
    requires Permuting(rank) && NoDup(rows)
    ensures NoDup(rank(rows))
  {
    SameElements(rank(rows), rows);
    NoDupCard(rows);
    assert Elems(rank(rows)) == Elems(rows);
    FullElemsDistinct(rank(rows));
  }

  lemma SlicesJoin(s: seq<string>, offset: nat, limit: nat)
    ensures Slice(s, offset, limit) + Slice(s, offset + limit, limit) == Slice(s, offset, 2 * limit)
  {
  }
}
