/** Ranking quality of shadow evaluation: normalized discounted cumulative gain of graded labels.
    Labels are naturals (labelOf yields 0, 1 or 2), and the discount 1/log2(i+2) of position i is any
    positive, strictly decreasing w. */
module Ndcg {
  import opened Sorting
  import opened Wrappers

  ghost predicate Discount(w: nat -> real) {
    (forall i :: w(i) > 0.0) && forall i, j :: i < j ==> w(i) > w(j)
  }

  function Pow2(n: nat): nat {
    if n == 0 then 1 else 2 * Pow2(n - 1)
  }

  function Gain(grade: nat): real {
    (Pow2(grade) - 1) as real
  }

  /** Discounted gain of the first k labels of s, whose head stands at position i. */
  function DcgFrom(s: seq<nat>, k: int, w: nat -> real, i: nat): real {
    if s == [] || k <= 0 then 0.0 else Gain(s[0]) * w(i) + DcgFrom(s[1..], k - 1, w, i + 1)
  }

  method DcgAt(rels: seq<nat>, k: int, w: nat -> real) returns (sum: real)
    ensures sum == DcgFrom(rels, k, w, 0)
  {
    hide Gain;
    sum := 0.0;
    var i := 0;
    while i < |rels| && i < k
      invariant 0 <= i <= |rels|
      invariant DcgFrom(rels, k, w, 0) == sum + DcgFrom(rels[i..], k - i, w, i)
    {
      assert rels[i..][1..] == rels[i + 1..];
      sum := sum + Gain(rels[i]) * w(i);
      i := i + 1;
    }
  }

  // ----- descending order -----

  predicate Larger(a: nat, b: nat) {
    a > b
  }

  /** The labels from best to worst. */
  function Ideal(s: seq<nat>): seq<nat> {
    SortBy(Larger, s)
  }

  // ----- rearrangement -----

  lemma {:induction false} GainGrows(a: nat, b: nat)
    requires a < b
    ensures 0.0 <= Gain(a) < Gain(b)
  {
    if a + 1 < b {
      GainGrows(a, b - 1);
    }
    PowPositive(b - 1);
    PowPositive(a);
  }

  lemma {:induction false} PowPositive(n: nat)
    ensures Pow2(n) >= 1
  {
    if n > 0 {
      PowPositive(n - 1);
    }
  }

  /** Exchanging an adjacent inversion strictly raises the discounted gain. */
  lemma Exchange(low: real, high: real, near: real, far: real)
    requires low < high && far < near
    ensures low * near + high * far < high * near + low * far
  {
    assert (high - low) * (near - far) > 0.0;
  }

  /** Moving a label down past larger ones raises the discounted gain, strictly if it moves. */
  lemma {:induction false} InsertRaises(x: nat, t: seq<nat>, k: int, w: nat -> real, i: nat)
    requires Discount(w)
    ensures DcgFrom([x] + t, k, w, i) <= DcgFrom(InsertBy(Larger, x, t), k, w, i)
    ensures k > 0 && InsertBy(Larger, x, t) != [x] + t ==> DcgFrom([x] + t, k, w, i) < DcgFrom(InsertBy(Larger, x, t), k, w, i)
  {
    if k > 0 && t != [] && x < t[0] {
      InsertRaises(x, t[1..], k - 1, w, i + 1);
      SwapRaises(x, t, k, w, i);
      DcgCons(t[0], InsertBy(Larger, x, t[1..]), k, w, i);
      assert InsertBy(Larger, x, t) == [t[0]] + InsertBy(Larger, x, t[1..]);
      hide Gain, DcgFrom, Discount;
    }
  }

  lemma DcgCons(x: nat, t: seq<nat>, k: int, w: nat -> real, i: nat)
    requires k > 0
    ensures DcgFrom([x] + t, k, w, i) == Gain(x) * w(i) + DcgFrom(t, k - 1, w, i + 1)
  {
    assert ([x] + t)[1..] == t;
  }

  lemma SwapRaises(x: nat, t: seq<nat>, k: int, w: nat -> real, i: nat)
    requires Discount(w) && t != [] && x < t[0] && k > 0
    ensures DcgFrom([x] + t, k, w, i) < Gain(t[0]) * w(i) + DcgFrom([x] + t[1..], k - 1, w, i + 1)
  {
    GainGrows(x, t[0]);
    assert ([x] + t)[1..] == t && ([x] + t[1..])[1..] == t[1..];
    assert w(i + 1) < w(i);
    Exchange(Gain(x), Gain(t[0]), w(i), w(i + 1));
    Exchange(Gain(x), Gain(t[0]), w(i), 0.0);
    assert DcgFrom([x] + t, k, w, i) == Gain(x) * w(i) + DcgFrom(t, k - 1, w, i + 1);
  }

  function Top(s: seq<nat>, k: int): seq<nat> {
    if k <= 0 then [] else if k < |s| then s[..k] else s
  }

  /** Rearrangement: no order of the labels gains more than the descending one, and one that gains as
      much has the same labels in its first k positions. */
  lemma SortMaximizes(s: seq<nat>, k: int, w: nat -> real, i: nat)
    requires Discount(w)
    ensures DcgFrom(s, k, w, i) <= DcgFrom(Ideal(s), k, w, i)
    ensures DcgFrom(s, k, w, i) == DcgFrom(Ideal(s), k, w, i) <==> Top(s, k) == Top(Ideal(s), k)
  {
    BestOrder(s, k, w, i);
    if Top(s, k) == Top(Ideal(s), k) {
      TopDecides(s, Ideal(s), k, w, i);
    }
  }

  lemma {:induction false} BestOrder(s: seq<nat>, k: int, w: nat -> real, i: nat)
    requires Discount(w)
    ensures DcgFrom(s, k, w, i) <= DcgFrom(Ideal(s), k, w, i)
    ensures DcgFrom(s, k, w, i) == DcgFrom(Ideal(s), k, w, i) ==> Top(s, k) == Top(Ideal(s), k)
  {
    hide Discount, InsertBy, Gain;
    if s != [] && k > 0 {
      var rest := Ideal(s[1..]);
      BestOrder(s[1..], k - 1, w, i + 1);
      InsertRaises(s[0], rest, k, w, i);
      assert ([s[0]] + rest)[1..] == rest;
      if DcgFrom(s, k, w, i) == DcgFrom(Ideal(s), k, w, i) {
        assert Ideal(s) == [s[0]] + rest;
        assert s == [s[0]] + s[1..];
        TopCons(s[0], s[1..], k);
        TopCons(s[0], rest, k);
      }
    }
  }

  lemma TopCons(x: nat, t: seq<nat>, k: int)
    requires k > 0
    ensures Top([x] + t, k) == [x] + Top(t, k - 1)
  {
  }

  lemma {:induction false} TopDecides(a: seq<nat>, b: seq<nat>, k: int, w: nat -> real, i: nat)
    requires Top(a, k) == Top(b, k)
    ensures DcgFrom(a, k, w, i) == DcgFrom(b, k, w, i)
  {
    assert k > 0 ==> (Top(a, k) == [] <==> a == []) && (Top(b, k) == [] <==> b == []);
    if k > 0 && a != [] {
      assert Top(a, k)[0] == a[0] && b != [] && Top(b, k)[0] == b[0];
      assert a == [a[0]] + a[1..] && b == [b[0]] + b[1..];
      TopCons(a[0], a[1..], k);
      TopCons(b[0], b[1..], k);
      assert Top(a[1..], k - 1) == Top(a, k)[1..] && Top(b[1..], k - 1) == Top(b, k)[1..];
      TopDecides(a[1..], b[1..], k - 1, w, i + 1);
    }
  }

  lemma {:induction false} DcgSign(s: seq<nat>, k: int, w: nat -> real, i: nat)
    requires Discount(w)
    ensures DcgFrom(s, k, w, i) >= 0.0
    ensures s != [] && k > 0 && s[0] > 0 ==> DcgFrom(s, k, w, i) > 0.0
    ensures (forall x :: x in s ==> x == 0) ==> DcgFrom(s, k, w, i) == 0.0
  {
    if s != [] && k > 0 {
      DcgSign(s[1..], k - 1, w, i + 1);
      assert forall x :: x in s[1..] ==> x in s;
      assert s[0] in s && w(i) > 0.0;
      if s[0] > 0 {
        GainGrows(0, s[0]);
        assert Gain(s[0]) * w(i) > 0.0;
      } else {
        assert Gain(s[0]) == 0.0;
      }
    }
  }

  /** The ideal is positive exactly when some label is and the cutoff admits a position. */
  lemma IdealSign(rels: seq<nat>, k: int, w: nat -> real)
    requires Discount(w)
    ensures DcgFrom(Ideal(rels), k, w, 0) > 0.0 <==> k > 0 && exists x :: x in rels && x > 0
  {
    hide Discount;
    SortFacts(Larger, rels);
    DcgSign(Ideal(rels), k, w, 0);
    if x :| x in rels && x > 0 {
      assert x in Ideal(rels);
      assert Ideal(rels)[0] > 0;
    }
  }

  // ----- normalized gain -----

  function Ndcg(rels: seq<nat>, k: int, w: nat -> real): real {
    var ideal := DcgFrom(Ideal(rels), k, w, 0);
    if ideal == 0.0 then 0.0 else DcgFrom(rels, k, w, 0) / ideal
  }

  method NdcgAt(rels: seq<nat>, k: int, w: nat -> real) returns (r: real)
    ensures r == Ndcg(rels, k, w)
  {
    var dcg := DcgAt(rels, k, w);
    var ideal := Ideal(rels);
    var idcg := DcgAt(ideal, k, w);
    if idcg == 0.0 {
      return 0.0;
    }
    r := dcg / idcg;
  }

  /** NDCG lies in [0, 1]; it is 1 exactly for a list with a positive label whose first k labels are
      the k best in order. */
  lemma NdcgRange(rels: seq<nat>, k: int, w: nat -> real)
    requires Discount(w)
    ensures 0.0 <= Ndcg(rels, k, w) <= 1.0
    ensures Ndcg(rels, k, w) == 1.0 <==>
            k > 0 && (exists x :: x in rels && x > 0) && Top(rels, k) == Top(Ideal(rels), k)
  {
    hide Discount, DcgFrom, Ideal, Top;
    SortMaximizes(rels, k, w, 0);
    DcgSign(rels, k, w, 0);
    DcgSign(Ideal(rels), k, w, 0);
    IdealSign(rels, k, w);
    var a, b := DcgFrom(rels, k, w, 0), DcgFrom(Ideal(rels), k, w, 0);
    if b > 0.0 {
      Ratio(a, b);
    }
  }

  /** A best-first list with a positive label scores 1. */
  lemma DescendingIsPerfect(rels: seq<nat>, k: int, w: nat -> real)
    requires Discount(w) && Sorted(Larger, rels) && k > 0 && exists x :: x in rels && x > 0
    ensures Ndcg(rels, k, w) == 1.0
  {
    SortedIsFixed(Larger, rels);
    NdcgRange(rels, k, w);
  }

  lemma Ratio(a: real, b: real)
    requires 0.0 <= a <= b && b > 0.0
    ensures 0.0 <= a / b <= 1.0 && (a / b == 1.0 <==> a == b)
  {
    assert a == (a / b) * b;
  }

  // ----- impression groups -----

  datatype Impression = Impression(video: Option<string>, query: Option<string>, session: string, meaningful: bool, clicked: bool)

  datatype Item = Item(video: string, grade: nat)

  datatype Key = Key(session: string, query: string)

  function LabelOf(r: Impression): nat {
    if r.meaningful then 2 else if r.clicked then 1 else 0
  }

  /** The list shown for a key: its rows that carry a video, in row order. */
  function Shown(rows: seq<Impression>, k: Key): seq<Item> {
    if rows == [] then []
    else
      var r := rows[|rows| - 1];
      Shown(rows[..|rows| - 1], k) + (if KeyOf(r) == Some(k) then [Item(r.video.value, LabelOf(r))] else [])
  }

  function KeyOf(r: Impression): (k: Option<Key>)
    ensures k.Some? ==> r.video.Some?
  {
    if r.video.None? || r.query.None? then None else Some(Key(r.session, r.query.value))
  }

  lemma ShownNext(rows: seq<Impression>, n: nat, k: Key)
    requires n < |rows|
    ensures var r := rows[n];
            Shown(rows[..n + 1], k) == Shown(rows[..n], k) + (if KeyOf(r) == Some(k) then [Item(r.video.value, LabelOf(r))] else [])
  {
    assert rows[..n + 1][..n] == rows[..n];
  }

  lemma {:induction false} RowIsShown(rows: seq<Impression>, r: Impression)
    requires r in rows && KeyOf(r).Some?
    ensures Shown(rows, KeyOf(r).value) != []
  {
    if rows[|rows| - 1] != r {
      RowIsShown(rows[..|rows| - 1], r);
    }
  }

  /** Every key of a usable row has exactly one group, holding its whole list in order. */
  method GroupImpressions(rows: seq<Impression>) returns (order: seq<Key>, groups: seq<seq<Item>>)
    ensures |order| == |groups|
    ensures forall i, j :: 0 <= i < j < |order| ==> order[i] != order[j]
    ensures forall k :: k in order <==> exists r :: r in rows && KeyOf(r) == Some(k)
    ensures forall i :: 0 <= i < |order| ==> groups[i] == Shown(rows, order[i])
  {
    hide Shown;
    order := [];
    var byKey: map<Key, seq<Item>> := map[];
    var n := 0;
    assert rows[..0] == [];
    NothingShown();
    while n < |rows|
      invariant 0 <= n <= |rows|
      invariant forall i, j :: 0 <= i < j < |order| ==> order[i] != order[j]
      invariant forall k :: k in order <==> k in byKey
      invariant forall k :: k in byKey ==> byKey[k] == Shown(rows[..n], k)
      invariant forall k :: k in byKey ==> exists r :: r in rows && KeyOf(r) == Some(k)
      invariant forall k :: k !in byKey ==> Shown(rows[..n], k) == []
    {
      var r := rows[n];
      forall k { ShownNext(rows, n, k); }
      if KeyOf(r).Some? {
        var k := KeyOf(r).value;
        if k !in byKey {
          order := order + [k];
          byKey := byKey[k := []];
        }
        byKey := byKey[k := byKey[k] + [Item(r.video.value, LabelOf(r))]];
      }
      n := n + 1;
    }
    assert rows[..n] == rows;
    forall r | r in rows && KeyOf(r).Some? ensures KeyOf(r).value in byKey { RowIsShown(rows, r); }
    groups := seq(|order|, i requires 0 <= i < |order| => byKey[order[i]]);
  }

  lemma NothingShown()
    ensures forall k :: Shown([], k) == []
  {
  }

  // ----- labels in a ranker's order -----

  function VideoOf(i: Item): string {
    i.video
  }

  function GradeOf(i: Item): nat {
    i.grade
  }

  function Videos(items: seq<Item>): seq<string> {
    Map(VideoOf, items)
  }

  function Labels(items: seq<Item>): seq<nat> {
    Map(GradeOf, items)
  }

  /** The label a video id maps to: the last one in the group, 0 when absent. */
  function LabelIn(items: seq<Item>, video: string): nat {
    if items == [] then 0
    else if items[|items| - 1].video == video then items[|items| - 1].grade
    else LabelIn(items[..|items| - 1], video)
  }

  function Mapped(items: seq<Item>): string -> Item {
    v => Item(v, LabelIn(items, v))
  }

  /** The items as a ranked list sees them, each video under its mapped label. */
  function Relabelled(items: seq<Item>, ranked: seq<string>): seq<Item> {
    Map(Mapped(items), ranked)
  }

  method RelsInRankedOrder(ranked: seq<string>, items: seq<Item>) returns (out: seq<nat>)
    ensures out == Labels(Relabelled(items, ranked))
  {
    var rel: map<string, nat> := map[];
    var n := 0;
    while n < |items|
      invariant 0 <= n <= |items|
      invariant forall v :: LabelIn(items[..n], v) == if v in rel then rel[v] else 0
    {
      assert items[..n + 1][..n] == items[..n];
      rel := rel[items[n].video := items[n].grade];
      n := n + 1;
    }
    assert items[..n] == items;
    out := [];
    var i := 0;
    while i < |ranked|
      invariant 0 <= i <= |ranked|
      invariant out == Labels(Relabelled(items, ranked))[..i]
    {
      out := out + [if ranked[i] in rel then rel[ranked[i]] else 0];
      i := i + 1;
    }
  }

  /** A video appears under one label only; distinct ids are the usual case. */
  predicate OneLabelEach(items: seq<Item>) {
    forall i, j :: 0 <= i < j < |items| && items[i].video == items[j].video ==> items[i].grade == items[j].grade
  }

  /** Ranking moves labels around without changing them exactly when no video of the group was shown
      under two labels. */
  lemma RankingKeepsLabels(items: seq<Item>, ranked: seq<string>)
    requires multiset(ranked) == multiset(Videos(items))
    ensures multiset(Relabelled(items, ranked)) == multiset(items) <==> OneLabelEach(items)
  {
    var same := Relabelled(items, Videos(items));
    MapPermutes(Mapped(items), ranked, Videos(items));
    assert forall i :: 0 <= i < |items| ==> same[i] == Mapped(items)(items[i].video);
    if OneLabelEach(items) {
      forall i | 0 <= i < |items| ensures same[i] == items[i] { MappedLabel(items, i); }
      assert same == items;
    } else if multiset(same) == multiset(items) {
      forall i, j | 0 <= i < j < |items| && items[i].video == items[j].video ensures items[i].grade == items[j].grade {
        assert items[i] in multiset(same) && items[j] in multiset(same);
      }
    }
  }

  lemma {:induction false} MappedLabel(items: seq<Item>, i: nat)
    requires OneLabelEach(items) && i < |items|
    ensures LabelIn(items, items[i].video) == items[i].grade
  {
    if i < |items| - 1 && items[|items| - 1].video != items[i].video {
      MappedLabel(items[..|items| - 1], i);
    }
  }

  /** Mapping every item to its video's label keeps the group's labels as a whole; one label each suffices. */
  predicate LabelsSurvive(items: seq<Item>) {
    multiset(Labels(Relabelled(items, Videos(items)))) == multiset(Labels(items))
  }

  /** Any two ranked orders of a group share one ideal, and they share it with the served order exactly
      when the group's labels survive the mapping. */
  lemma IdealSharedIff(items: seq<Item>, a: seq<string>, b: seq<string>)
    requires multiset(a) == multiset(b) == multiset(Videos(items))
    ensures Ideal(Labels(Relabelled(items, a))) == Ideal(Labels(Relabelled(items, b)))
    ensures Ideal(Labels(Relabelled(items, a))) == Ideal(Labels(items)) <==> LabelsSurvive(items)
    ensures OneLabelEach(items) ==> LabelsSurvive(items)
  {
    var x, y, mapped := Relabelled(items, a), Relabelled(items, b), Relabelled(items, Videos(items));
    RelabelledIdeal(items, a, Videos(items));
    RelabelledIdeal(items, b, Videos(items));
    SortFacts(Larger, Labels(mapped));
    SortFacts(Larger, Labels(items));
    if LabelsSurvive(items) {
      SortOfPermutation(Larger, Labels(mapped), Labels(items));
    }
    if OneLabelEach(items) {
      RankingKeepsLabels(items, Videos(items));
      MapPermutes(GradeOf, mapped, items);
    }
  }

  lemma RelabelledIdeal(items: seq<Item>, a: seq<string>, b: seq<string>)
    requires multiset(a) == multiset(b)
    ensures Ideal(Labels(Relabelled(items, a))) == Ideal(Labels(Relabelled(items, b)))
  {
    MapPermutes(Mapped(items), a, b);
    MapPermutes(GradeOf, Relabelled(items, a), Relabelled(items, b));
    SortOfPermutation(Larger, Labels(Relabelled(items, a)), Labels(Relabelled(items, b)));
  }

  /** The shadow and heuristic orders of a group are scored against one ideal, and production's is the same
      when the labels survive, so the order with the larger gain has the larger NDCG. */
  lemma OneIdealPerGroup(items: seq<Item>, shadow: seq<string>, heuristic: seq<string>, k: int, w: nat -> real)
    requires Discount(w) && multiset(shadow) == multiset(heuristic) == multiset(Videos(items))
    ensures var a, b, served := Labels(Relabelled(items, shadow)), Labels(Relabelled(items, heuristic)), Labels(items);
            && (DcgFrom(a, k, w, 0) <= DcgFrom(b, k, w, 0) ==> Ndcg(a, k, w) <= Ndcg(b, k, w))
            && (LabelsSurvive(items) && DcgFrom(a, k, w, 0) <= DcgFrom(served, k, w, 0) ==> Ndcg(a, k, w) <= Ndcg(served, k, w))
            && (LabelsSurvive(items) && DcgFrom(served, k, w, 0) <= DcgFrom(a, k, w, 0) ==> Ndcg(served, k, w) <= Ndcg(a, k, w))
  {
    IdealSharedIff(items, shadow, heuristic);
    hide LabelsSurvive, Relabelled, Ideal, Labels;
    var a, b, served := Labels(Relabelled(items, shadow)), Labels(Relabelled(items, heuristic)), Labels(items);
    LargerGainWins(a, b, k, w);
    if LabelsSurvive(items) {
      LargerGainWins(a, served, k, w);
      LargerGainWins(served, a, k, w);
    }
  }

  lemma LargerGainWins(a: seq<nat>, b: seq<nat>, k: int, w: nat -> real)
    requires Discount(w) && Ideal(a) == Ideal(b)
    ensures DcgFrom(a, k, w, 0) <= DcgFrom(b, k, w, 0) ==> Ndcg(a, k, w) <= Ndcg(b, k, w)
  {
    var ideal := DcgFrom(Ideal(a), k, w, 0);
    DcgSign(Ideal(a), k, w, 0);
    if ideal > 0.0 {
      SameDivisor(DcgFrom(a, k, w, 0), DcgFrom(b, k, w, 0), ideal);
    }
  }

  lemma SameDivisor(a: real, b: real, d: real)
    requires d > 0.0
    ensures a <= b ==> a / d <= b / d
  {
    assert a == (a / d) * d && b == (b / d) * d;
  }

  /** A video shown unlabelled and then watched: every ranker's ideal has two watched items, production's one. */
  lemma TwoLabelsShiftTheIdeal()
    ensures var items := [Item("v", 0), Item("v", 2)];
            && !OneLabelEach(items) && !LabelsSurvive(items)
            && forall ranked :: multiset(ranked) == multiset(Videos(items)) ==>
                 Ideal(Labels(Relabelled(items, ranked))) != Ideal(Labels(items))
  {
    var items := [Item("v", 0), Item("v", 2)];
    assert LabelIn(items, "v") == 2;
    assert Labels(Relabelled(items, Videos(items))) == [2, 2];
    assert Labels(items) == [0, 2];
    assert 0 in multiset([0, 2]) && 0 !in multiset([2, 2]);
    assert items[0].video == items[1].video;
    hide LabelsSurvive, Ideal;
    forall ranked | multiset(ranked) == multiset(Videos(items))
      ensures Ideal(Labels(Relabelled(items, ranked))) != Ideal(Labels(items))
    {
      IdealSharedIff(items, ranked, ranked);
    }
  }

  function TwoEach(): seq<Item> {
    [Item("v", 0), Item("v", 2), Item("w", 2), Item("w", 0)]
  }

  lemma LastLabels()
    ensures LabelIn(TwoEach(), "v") == 2 && LabelIn(TwoEach(), "w") == 0
  {
    var items := TwoEach();
    assert "v" != "w" by { assert "v"[0] != "w"[0]; }
    assert items[..3] == [Item("v", 0), Item("v", 2), Item("w", 2)];
    assert items[..3][..2] == [Item("v", 0), Item("v", 2)];
  }

  /** Two labels for one video do not by themselves shift the ideal: others may make up for them. */
  lemma TwoLabelsMayCancel()
    ensures !OneLabelEach(TwoEach()) && LabelsSurvive(TwoEach())
  {
    assert TwoEach()[0].video == TwoEach()[1].video;
    LastLabels();
    hide LabelIn;
    MappedLabels(TwoEach());
    hide Labels, Relabelled, Videos;
    assert multiset([2, 2, 0, 0]) == multiset([0, 2, 2, 0]);
  }

  lemma MappedLabels(items: seq<Item>)
    requires items == TwoEach() && LabelIn(items, "v") == 2 && LabelIn(items, "w") == 0
    ensures Labels(Relabelled(items, Videos(items))) == [2, 2, 0, 0] && Labels(items) == [0, 2, 2, 0]
  {
    hide LabelIn;
    var mapped := Relabelled(items, Videos(items));
    assert forall i :: 0 <= i < 4 ==> mapped[i] == Mapped(items)(items[i].video);
  }
}
