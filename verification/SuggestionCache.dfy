/** The suggestion cache under racing readers and writers. */
module SuggestionCache {
  import opened Wrappers
  import opened Identifiers
  import opened CatalogModel
  import opened CatalogInvariants
  import opened CatalogRuns
  import opened CatalogReads

  // ----- cache keys -----

  datatype Request = Request(
    fence: Fence, mode: string, hideSensitive: bool, normalized: string, limit: int, personalized: bool)

  const CACHE_PREFIX_MAX := 3

  /** Only shared, short, nonempty prefixes are cached; an empty one is answered before the cache. */
  predicate Cacheable(r: Request) {
    !r.personalized && 0 < |r.normalized| <= CACHE_PREFIX_MAX
  }

  function EffectiveMode(mode: string): string {
    if mode == "" then "simple" else mode
  }

  function BoolText(b: bool): string {
    if b then "true" else "false"
  }

  function CatalogFence(f: Fence): string {
    f.epoch + ":" + f.generation
  }

  function KeySuffix(r: Request): string {
    EffectiveMode(r.mode) + ":" + BoolText(r.hideSensitive) + ":" + r.normalized
  }

  function CacheKey(r: Request): string {
    "sugg:" + (CatalogFence(r.fence) + ":" + KeySuffix(r))
  }

  /** Texts a status read can put into a fence. */
  predicate FenceText(f: Fence) {
    ':' !in f.epoch && ':' !in f.generation
  }

  lemma {:induction false} SplitAtColon(a: string, r: string, b: string, s: string)
    requires ':' !in a && ':' !in b && a + ":" + r == b + ":" + s
    ensures a == b && r == s
  {
    var x, y := a + ":" + r, b + ":" + s;
    assert x[|a|] == ':' && y[|b|] == ':';
    assert (forall i :: 0 <= i < |a| ==> x[i] == a[i]) && (forall i :: 0 <= i < |b| ==> y[i] == b[i]);
    assert |a| == |b|;
    assert a == x[..|a|] && b == y[..|b|];
    assert r == x[|a| + 1..] && s == y[|b| + 1..];
  }

  lemma SuffixLengths(m1: string, b1: bool, n1: string, m2: string, b2: bool, n2: string)
    requires 0 < |n1| <= |n2| <= CACHE_PREFIX_MAX
    requires m1 + ":" + BoolText(b1) + ":" + n1 == m2 + ":" + BoolText(b2) + ":" + n2
    ensures |n1| == |n2|
  {
    var x, y := m1 + ":" + BoolText(b1) + ":" + n1, m2 + ":" + BoolText(b2) + ":" + n2;
    var k := |y| - |n2| - 1;
    assert y[k] == ':';
    var t := BoolText(b1);
    assert forall i :: 0 <= i < |t| ==> x[|m1| + 1 + i] == t[i];
    assert t[|t| - 1] == 'e' && t[|t| - 2] != ':';
  }

  /** A cacheable key determines everything it is made of, though mode is free text and may hold
      colons itself. The limit is not part of it. */
  lemma CacheKeyInjective(r: Request, q: Request)
    requires Cacheable(r) && Cacheable(q) && FenceText(r.fence) && FenceText(q.fence)
    requires CacheKey(r) == CacheKey(q)
    ensures r.fence == q.fence && EffectiveMode(r.mode) == EffectiveMode(q.mode)
    ensures r.hideSensitive == q.hideSensitive && r.normalized == q.normalized
  {
    var x, y := CacheKey(r), CacheKey(q);
    assert x[5..] == CatalogFence(r.fence) + ":" + KeySuffix(r);
    assert y[5..] == CatalogFence(q.fence) + ":" + KeySuffix(q);
    var p, s := r.fence.generation + ":" + KeySuffix(r), q.fence.generation + ":" + KeySuffix(q);
    assert x[5..] == r.fence.epoch + ":" + p && y[5..] == q.fence.epoch + ":" + s;
    SplitAtColon(r.fence.epoch, p, q.fence.epoch, s);
    SplitAtColon(r.fence.generation, KeySuffix(r), q.fence.generation, KeySuffix(q));
    SuffixInjective(EffectiveMode(r.mode), r.hideSensitive, r.normalized,
                    EffectiveMode(q.mode), q.hideSensitive, q.normalized);
  }

  /** Two cacheable requests share a cache entry exactly when they agree on everything but the limit: a hit
      may have been computed for another limit. */
  lemma SharedEntryIff(r: Request, q: Request)
    requires Cacheable(r) && Cacheable(q) && FenceText(r.fence) && FenceText(q.fence)
    ensures CacheKey(r) == CacheKey(q) <==> SameQuestion(r, q)
  {
    if CacheKey(r) == CacheKey(q) {
      CacheKeyInjective(r, q);
    }
  }

  lemma SuffixInjective(m1: string, b1: bool, n1: string, m2: string, b2: bool, n2: string)
    requires 0 < |n1| <= CACHE_PREFIX_MAX && 0 < |n2| <= CACHE_PREFIX_MAX
    requires m1 + ":" + BoolText(b1) + ":" + n1 == m2 + ":" + BoolText(b2) + ":" + n2
    ensures m1 == m2 && b1 == b2 && n1 == n2
  {
    if |n1| <= |n2| {
      SuffixLengths(m1, b1, n1, m2, b2, n2);
    } else {
      SuffixLengths(m2, b2, n2, m1, b1, n1);
    }
    var x, y := m1 + ":" + BoolText(b1) + ":" + n1, m2 + ":" + BoolText(b2) + ":" + n2;
    var end := |x| - |n1| - 1;
    assert n1 == x[end + 1..] && n2 == y[end + 1..];
    assert x[..end] == m1 + ":" + BoolText(b1) && y[..end] == m2 + ":" + BoolText(b2);
    assert x[end - 5] == (if b1 then ':' else 'f') && y[end - 5] == (if b2 then ':' else 'f');
    assert m1 == x[..end - |BoolText(b1)| - 1] && m2 == y[..end - |BoolText(b2)| - 1];
  }

  // ----- readers beside writers -----

  /** A suggestion list, known by the request it was computed for and the instants it read the
      database at: the list is a function of those, or empty where a query failed. */
  datatype Listing = Listing(request: Request, began: nat, instants: seq<nat>, degraded: bool)

  datatype Reader =
    | Computing(request: Request, headers: Headers, began: nat, instants: seq<nat>)
    | Answering(request: Request, headers: Headers, began: nat, listing: Listing)

  /** A response sent with status 200. */
  datatype Answer = Answer(request: Request, began: nat, finished: nat, listing: Listing)

  /** Committed transactions so far, the cache, the readers under way and the answers sent. */
  datatype World = World(
    start: State, steps: seq<Step>, cache: map<string, Listing>, readers: map<nat, Reader>, answers: seq<Answer>)

  datatype Move =
    | Commit(step: Step)
    | Open(reader: nat, headers: Headers, mode: string, hideSensitive: bool, normalized: string, limit: int, personalized: bool)
    | CacheHit(reader: nat)
    | Query(reader: nat)
    | Finish(reader: nat)
    | Degrade(reader: nat)
    | Close(reader: nat)
    | Evict(keys: set<string>)

  ghost function Now(w: World): State {
    Exec(w.start, w.steps)
  }

  ghost function Advance(w: World, m: Move): World {
    match m
    case Commit(step) => w.(steps := w.steps + [step])
    case Open(r, h, mode, sensitive, normalized, limit, personalized) =>
      var f := BeginRead(ReadStatus(Now(w)), h);
      if f.None? then w.(readers := w.readers - {r})
      else
        var request := Request(f.value, mode, sensitive, normalized, limit, personalized);
        w.(readers := w.readers[r := Computing(request, h, |w.steps|, [])])
    case CacheHit(r) =>
      if r in w.readers && w.readers[r].Computing? && w.readers[r].instants == [] && Cacheable(w.readers[r].request)
         && CacheKey(w.readers[r].request) in w.cache
      then
        var c := w.readers[r];
        w.(readers := w.readers[r := Answering(c.request, c.headers, c.began, w.cache[CacheKey(c.request)])])
      else w
    case Query(r) =>
      if r in w.readers && w.readers[r].Computing?
      then w.(readers := w.readers[r := w.readers[r].(instants := w.readers[r].instants + [|w.steps|])])
      else w
    case Finish(r) =>
      if r in w.readers && w.readers[r].Computing?
      then
        var c := w.readers[r];
        var listing := Listing(c.request, c.began, c.instants, false);
        w.(readers := w.readers[r := Answering(c.request, c.headers, c.began, listing)],
           cache := if Cacheable(c.request) then w.cache[CacheKey(c.request) := listing] else w.cache)
      else w
    case Degrade(r) =>
      if r in w.readers && w.readers[r].Computing?
      then
        var c := w.readers[r];
        w.(readers := w.readers[r := Answering(c.request, c.headers, c.began, Listing(c.request, c.began, c.instants, true))])
      else w
    case Close(r) =>
      if r in w.readers && w.readers[r].Answering?
      then
        var a := w.readers[r];
        var sent := FinishRead(ReadStatus(Now(w)), a.headers, a.request.fence);
        w.(readers := w.readers - {r},
           answers := if sent then w.answers + [Answer(a.request, a.began, |w.steps|, a.listing)] else w.answers)
      else w
    case Evict(keys) => w.(cache := w.cache - keys)
  }

  ghost function Play(w: World, moves: seq<Move>): World {
    if moves == [] then w else Advance(Play(w, moves[..|moves| - 1]), moves[|moves| - 1])
  }

  predicate Fresh(w: World) {
    Dormant(w.start) && w.steps == [] && w.cache == map[] && w.readers == map[] && w.answers == []
  }

  // ----- what every move keeps -----

  /** The fence was the authority at instant t of the run, or the read is unfenced. */
  ghost predicate HeldAt(start: State, steps: seq<Step>, f: Fence, t: nat) {
    t <= |steps| && FenceText(f) && (f == UNFENCED || Authority(At(start, steps, t), f))
  }

  ghost predicate ListingOk(start: State, steps: seq<Step>, l: Listing) {
    HeldAt(start, steps, l.request.fence, l.began) && forall t :: t in l.instants ==> l.began <= t <= |steps|
  }

  /** A degraded list is its own reader's. */
  predicate OwnIfDegraded(l: Listing, request: Request, began: nat) {
    l.degraded ==> l.request == request && l.began == began
  }

  predicate SameQuestion(r: Request, q: Request) {
    r.fence == q.fence && EffectiveMode(r.mode) == EffectiveMode(q.mode)
    && r.hideSensitive == q.hideSensitive && r.normalized == q.normalized
  }

  ghost predicate ReaderOk(start: State, steps: seq<Step>, r: Reader) {
    match r
    case Computing(request, _, began, instants) => ListingOk(start, steps, Listing(request, began, instants, false))
    case Answering(request, _, began, listing) =>
      HeldAt(start, steps, request.fence, began) && ListingOk(start, steps, listing)
      && SameQuestion(request, listing.request) && OwnIfDegraded(listing, request, began)
  }

  ghost predicate AnswerOk(start: State, steps: seq<Step>, a: Answer) {
    && HeldAt(start, steps, a.request.fence, a.began) && HeldAt(start, steps, a.request.fence, a.finished)
    && a.began <= a.finished
    && ListingOk(start, steps, a.listing) && SameQuestion(a.request, a.listing.request)
    && OwnIfDegraded(a.listing, a.request, a.began)
    && a.listing.began <= a.finished && forall t :: t in a.listing.instants ==> t <= a.finished
  }

  ghost predicate CacheOk(w: World) {
    forall k :: k in w.cache ==>
      && CacheKey(w.cache[k].request) == k && Cacheable(w.cache[k].request) && !w.cache[k].degraded
      && ListingOk(w.start, w.steps, w.cache[k])
  }

  ghost predicate WorldOk(w: World) {
    && Inv(w.start) && CacheOk(w)
    && (forall r :: r in w.readers ==> ReaderOk(w.start, w.steps, w.readers[r]))
    && (forall a :: a in w.answers ==> AnswerOk(w.start, w.steps, a))
  }

  lemma BeganHeld(w: World, h: Headers, f: Fence)
    requires Inv(w.start) && BeginRead(ReadStatus(Now(w)), h) == Some(f)
    ensures HeldAt(w.start, w.steps, f, |w.steps|)
  {
    hide Inv;
    RunsKeepInv(w.start, w.steps);
    assert w.steps[..|w.steps|] == w.steps;
    if f != UNFENCED {
      StatusIsAuthority(Now(w), h, f);
    }
  }

  lemma CommitKeepsHeld(start: State, steps: seq<Step>, step: Step, f: Fence, t: nat)
    requires HeldAt(start, steps, f, t)
    ensures HeldAt(start, steps + [step], f, t)
  {
    assert (steps + [step])[..t] == steps[..t];
  }

  lemma CommitKeepsListing(start: State, steps: seq<Step>, step: Step, l: Listing)
    requires ListingOk(start, steps, l)
    ensures ListingOk(start, steps + [step], l)
  {
    hide HeldAt;
    CommitKeepsHeld(start, steps, step, l.request.fence, l.began);
  }

  lemma CommitKeepsWorld(w: World, step: Step)
    requires WorldOk(w)
    ensures WorldOk(Advance(w, Commit(step)))
  {
    hide HeldAt, ListingOk, Inv, CacheKey, Cacheable;
    var later := w.steps + [step];
    forall k | k in w.cache ensures ListingOk(w.start, later, w.cache[k]) {
      CommitKeepsListing(w.start, w.steps, step, w.cache[k]);
    }
    forall r | r in w.readers ensures ReaderOk(w.start, later, w.readers[r]) {
      match w.readers[r] {
        case Computing(request, _, began, instants) =>
          CommitKeepsListing(w.start, w.steps, step, Listing(request, began, instants, false));
        case Answering(request, _, began, listing) =>
          CommitKeepsListing(w.start, w.steps, step, listing);
          CommitKeepsHeld(w.start, w.steps, step, request.fence, began);
      }
    }
    forall a | a in w.answers ensures AnswerOk(w.start, later, a) {
      CommitKeepsListing(w.start, w.steps, step, a.listing);
      CommitKeepsHeld(w.start, w.steps, step, a.request.fence, a.began);
      CommitKeepsHeld(w.start, w.steps, step, a.request.fence, a.finished);
    }
  }

  lemma MoveKeepsWorld(w: World, m: Move)
    requires WorldOk(w)
    ensures WorldOk(Advance(w, m))
  {
    hide WorldOk, Advance;
    match m {
      case Commit(step) => CommitKeepsWorld(w, step);
      case Open(_, _, _, _, _, _, _) => OpenKeepsWorld(w, m);
      case CacheHit(r) => HitKeepsWorld(w, r);
      case Query(r) => QueryKeepsWorld(w, r);
      case Finish(r) => FinishKeepsWorld(w, r);
      case Degrade(r) => DegradeKeepsWorld(w, r);
      case Close(r) => CloseKeepsWorld(w, r);
      case Evict(keys) => EvictKeepsWorld(w, keys);
    }
  }

  lemma OpenKeepsWorld(w: World, m: Move)
    requires WorldOk(w) && m.Open?
    ensures WorldOk(Advance(w, m))
  {
    hide HeldAt, Inv, BeginRead, CacheKey, Cacheable, Exec;
    var f := BeginRead(ReadStatus(Now(w)), m.headers);
    if f.Some? {
      BeganHeld(w, m.headers, f.value);
    }
  }

  lemma QueryKeepsWorld(w: World, r: nat)
    requires WorldOk(w)
    ensures WorldOk(Advance(w, Query(r)))
  {
    hide Inv, CacheKey, Cacheable, Authority, BeginRead;
  }

  lemma FinishKeepsWorld(w: World, r: nat)
    requires WorldOk(w)
    ensures WorldOk(Advance(w, Finish(r)))
  {
    hide Inv, CacheKey, Cacheable, Authority, BeginRead;
  }

  lemma DegradeKeepsWorld(w: World, r: nat)
    requires WorldOk(w)
    ensures WorldOk(Advance(w, Degrade(r)))
  {
    hide Inv, CacheKey, Cacheable, Authority, BeginRead;
  }

  lemma EvictKeepsWorld(w: World, keys: set<string>)
    requires WorldOk(w)
    ensures WorldOk(Advance(w, Evict(keys)))
  {
    hide Inv, CacheKey, Cacheable, HeldAt, BeginRead;
  }

  lemma HitKeepsWorld(w: World, r: nat)
    requires WorldOk(w)
    ensures WorldOk(Advance(w, CacheHit(r)))
  {
    hide Inv, CacheKey, Cacheable, Authority;
    if Advance(w, CacheHit(r)) != w {
      var c := w.readers[r];
      assert ListingOk(w.start, w.steps, Listing(c.request, c.began, c.instants, false));
      CacheKeyInjective(c.request, w.cache[CacheKey(c.request)].request);
    }
  }

  lemma CloseKeepsWorld(w: World, r: nat)
    requires WorldOk(w)
    ensures WorldOk(Advance(w, Close(r)))
  {
    hide HeldAt, Inv, CacheKey, Cacheable, BeginRead;
    if r in w.readers && w.readers[r].Answering? {
      var a := w.readers[r];
      if FinishRead(ReadStatus(Now(w)), a.headers, a.request.fence) {
        BeganHeld(w, a.headers, a.request.fence);
        HeldInTime(w, a.request.fence, a.began);
        HeldInTime(w, a.listing.request.fence, a.listing.began);
      }
    }
  }

  lemma HeldInTime(w: World, f: Fence, t: nat)
    requires HeldAt(w.start, w.steps, f, t)
    ensures t <= |w.steps|
  {
  }

  lemma {:induction false} PlayKeepsWorld(w: World, moves: seq<Move>)
    requires WorldOk(w)
    ensures WorldOk(Play(w, moves))
  {
    hide WorldOk, Advance;
    if moves != [] {
      PlayKeepsWorld(w, moves[..|moves| - 1]);
      MoveKeepsWorld(Play(w, moves[..|moves| - 1]), moves[|moves| - 1]);
    }
  }

  /** A list answered with 200 under a fence, cached or not, was computed for the same question and
      read the database only while that very fence was the authority: from before its first read to
      the moment the answer was sent nothing else was published, and every document row it read is, but for
      counters, the one that stands when it is answered. A degraded list is never another reader's. */
  lemma FencedAnswersAreUnmixed(w: World, moves: seq<Move>, a: Answer)
    requires Fresh(w) && a in Play(w, moves).answers && a.request.fence != UNFENCED
    ensures SameQuestion(a.request, a.listing.request)
    ensures a.listing.degraded ==> a.listing.request == a.request && a.listing.began == a.began
    ensures forall t :: t in a.listing.instants ==> a.listing.began <= t <= a.finished
    ensures var v := Play(w, moves);
            forall t :: (a.listing.began <= t || a.began <= t) && t <= a.finished ==>
              && t <= |v.steps| && Authority(At(v.start, v.steps, t), a.request.fence) && a.finished <= |v.steps|
              && SameCatalog(At(v.start, v.steps, t).documents, At(v.start, v.steps, a.finished).documents)
  {
    hide Inv, Play, Authority, SameCatalog;
    StartOk(w);
    PlayKeepsWorld(w, moves);
    var v := Play(w, moves);
    var lo := if a.listing.began <= a.began then a.listing.began else a.began;
    forall t | lo <= t <= a.finished
      ensures Authority(At(v.start, v.steps, t), a.request.fence)
      ensures SameCatalog(At(v.start, v.steps, t).documents, At(v.start, v.steps, a.finished).documents)
    {
      AuthorityBetween(v.start, v.steps, lo, t, a.finished, Headers(None, None), a.request.fence);
      AuthorityBetween(v.start, v.steps, t, a.finished, a.finished, Headers(None, None), a.request.fence);
    }
  }

  lemma StartOk(w: World)
    requires Fresh(w)
    ensures WorldOk(w)
  {
    assert Inv(w.start);
  }
}
