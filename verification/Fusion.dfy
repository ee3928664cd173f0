/** Weighted reciprocal rank fusion of the hits of several retrievers. */
module Fusion {
  import opened Tables

  datatype Kind = TurnHit | MemoryHit

  /** The superseded row a hit or fact carries along, with the date until which it held. */
  datatype Prior = Prior(value: string, until: Option<string>)

  /** A retrieval candidate. */
  datatype Hit = Hit(
    source: string, kind: Kind, id: Uuid, score: real, content: string, date: Option<string>,
    sourceTurn: Option<Uuid>, prior: Option<Prior>)

  datatype HitKey = HitKey(kind: Kind, id: Uuid)

  function HitKeyOf(h: Hit): HitKey {
    HitKey(h.kind, h.id)
  }

  function SourceWeight(source: string): real {
    if source == "memory_vector" then 1.4
    else if source == "memory_fts" then 1.1
    else if source == "graph" then 1.5
    else if source == "edge_hop" then 0.9
    else if source == "turn_vector" then 1.0
    else if source == "turn_fts" then 0.7
    else 1.0
  }

  datatype Bucket = Bucket(source: string, hits: seq<Hit>)

  // ---------------------------------------------------------------- grouping

  /** Append a hit to the bucket of its source, opening a new bucket at the end if there is none. */
  function AddHit(buckets: seq<Bucket>, h: Hit): seq<Bucket> {
    if buckets == [] then [Bucket(h.source, [h])]
    else if buckets[0].source == h.source then [Bucket(h.source, buckets[0].hits + [h])] + buckets[1..]
    else [buckets[0]] + AddHit(buckets[1..], h)
  }

  function Buckets(pool: seq<Hit>): seq<Bucket> {
    if pool == [] then [] else AddHit(Buckets(pool[..|pool| - 1]), pool[|pool| - 1])
  }

  lemma {:induction false} AddHitAt(buckets: seq<Bucket>, h: Hit, i: nat)
    requires i <= |buckets| && forall j | 0 <= j < i :: buckets[j].source != h.source
    requires i < |buckets| ==> buckets[i].source == h.source
    ensures AddHit(buckets, h)
         == if i < |buckets| then buckets[i := Bucket(h.source, buckets[i].hits + [h])]
            else buckets + [Bucket(h.source, [h])]
  {
    if i > 0 {
      AddHitAt(buckets[1..], h, i - 1);
    }
  }

  /** The hits of one source, in the order of the pool. */
  function OfSource(pool: seq<Hit>, source: string): seq<Hit> {
    if pool == [] then []
    else OfSource(pool[..|pool| - 1], source) + if pool[|pool| - 1].source == source then [pool[|pool| - 1]] else []
  }

  lemma {:induction false} FindSource(bs: seq<Bucket>, source: string) returns (i: nat)
    ensures i <= |bs| && (i < |bs| ==> bs[i].source == source) && forall j | 0 <= j < i :: bs[j].source != source
  {
    if bs == [] || bs[0].source == source {
      return 0;
    }
    i := FindSource(bs[1..], source);
    i := i + 1;
  }

  lemma {:induction false} NoneOfSource(pool: seq<Hit>, source: string)
    requires forall h | h in pool :: h.source != source
    ensures OfSource(pool, source) == []
  {
    if pool != [] {
      NoneOfSource(pool[..|pool| - 1], source);
    }
  }

  ghost predicate HasBucket(bs: seq<Bucket>, source: string) {
    exists i :: 0 <= i < |bs| && bs[i].source == source
  }

  ghost predicate Grouped(bs: seq<Bucket>, pool: seq<Hit>) {
    && (forall i, j | 0 <= i < j < |bs| :: bs[i].source != bs[j].source)
    && (forall i | 0 <= i < |bs| :: bs[i].hits == OfSource(pool, bs[i].source))
    && (forall h | h in pool :: HasBucket(bs, h.source))
  }

  lemma OfSourceMore(p: seq<Hit>, h: Hit, source: string)
    ensures OfSource(p + [h], source) == OfSource(p, source) + if h.source == source then [h] else []
  {
    assert (p + [h])[..|p|] == p;
  }

  lemma AddKeepsGrouped(bs: seq<Bucket>, p: seq<Hit>, h: Hit)
    requires Grouped(bs, p)
    ensures Grouped(AddHit(bs, h), p + [h])
  {
    hide AddHit, OfSource;
    var bs', pool := AddHit(bs, h), p + [h];
    var i := FindSource(bs, h.source);
    AddHitAt(bs, h, i);
    forall j | 0 <= j < |bs'| ensures bs'[j].hits == OfSource(pool, bs'[j].source) {
      OfSourceMore(p, h, bs'[j].source);
      if j == |bs| {
        NewSource(bs, p, h.source);
      }
    }
    forall x | x in pool ensures HasBucket(bs', x.source) {
      KeepsBuckets(bs, bs', p, h, i, x);
    }
  }

  lemma NewSource(bs: seq<Bucket>, p: seq<Hit>, source: string)
    requires Grouped(bs, p) && forall j | 0 <= j < |bs| :: bs[j].source != source
    ensures OfSource(p, source) == []
  {
    hide OfSource;
    forall x | x in p ensures x.source != source {
      assert HasBucket(bs, x.source);
    }
    NoneOfSource(p, source);
  }

  lemma KeepsBuckets(bs: seq<Bucket>, bs': seq<Bucket>, p: seq<Hit>, h: Hit, i: nat, x: Hit)
    requires Grouped(bs, p) && x in p + [h]
    requires i < |bs'| && bs'[i].source == h.source
    requires |bs| <= |bs'| && forall j | 0 <= j < |bs| :: bs'[j].source == bs[j].source
    ensures HasBucket(bs', x.source)
  {
    hide OfSource;
    if x in p {
      assert HasBucket(bs, x.source);
      var j :| 0 <= j < |bs| && bs[j].source == x.source;
      assert bs'[j].source == x.source;
    } else {
      assert bs'[i].source == x.source;
    }
  }

  /** Each source has one bucket, and it holds exactly the hits of that source in the order of the pool. */
  lemma {:induction false} BucketsMeaning(pool: seq<Hit>)
    ensures Grouped(Buckets(pool), pool)
  {
    hide AddHit;
    if pool != [] {
      var n := |pool| - 1;
      BucketsMeaning(pool[..n]);
      AddKeepsGrouped(Buckets(pool[..n]), pool[..n], pool[n]);
      assert pool == pool[..n] + [pool[n]];
    }
  }

  method Append(buckets: seq<Bucket>, h: Hit) returns (r: seq<Bucket>)
    ensures r == AddHit(buckets, h)
  {
    var i := 0;
    while i < |buckets| && buckets[i].source != h.source
      invariant i <= |buckets|
      invariant forall j | 0 <= j < i :: buckets[j].source != h.source
    {
      i := i + 1;
    }
    AddHitAt(buckets, h, i);
    r := if i < |buckets| then buckets[i := Bucket(h.source, buckets[i].hits + [h])]
         else buckets + [Bucket(h.source, [h])];
  }

  /** `group_by_source`. */
  method GroupBySource(pool: seq<Hit>) returns (buckets: seq<Bucket>)
    ensures buckets == Buckets(pool)
  {
    buckets := [];
    for n := 0 to |pool|
      invariant buckets == Buckets(pool[..n])
    {
      assert pool[..n + 1][..n] == pool[..n];
      buckets := Append(buckets, pool[n]);
    }
    assert pool[..|pool|] == pool;
  }

  // ---------------------------------------------------------------- what each occurrence contributes

  /** One occurrence of a hit: the weight of its source and what it adds to the score. */
  datatype Share = Share(hit: Hit, weight: real, amount: real)

  function Amount(weight: real, k: nat, rank: nat): real {
    weight / ((k + rank + 1) as real)
  }

  function BucketShares(b: Bucket, k: nat, n: nat): seq<Share>
    requires n <= |b.hits|
  {
    seq(n, r requires 0 <= r < n => Share(b.hits[r], SourceWeight(b.source), Amount(SourceWeight(b.source), k, r)))
  }

  /** All occurrences, in the order the two loops visit them. */
  function Shares(buckets: seq<Bucket>, k: nat): seq<Share> {
    if buckets == [] then []
    else
      var b := buckets[|buckets| - 1];
      Shares(buckets[..|buckets| - 1], k) + BucketShares(b, k, |b.hits|)
  }

  function Total(shares: seq<Share>, key: HitKey): real {
    if shares == [] then 0.0
    else
      var s := shares[|shares| - 1];
      Total(shares[..|shares| - 1], key) + if HitKeyOf(s.hit) == key then s.amount else 0.0
  }

  /** The occurrence kept: replaced only by one of a strictly heavier source. */
  function Best(shares: seq<Share>, key: HitKey): Option<Share> {
    if shares == [] then None
    else
      var prev, s := Best(shares[..|shares| - 1], key), shares[|shares| - 1];
      if HitKeyOf(s.hit) == key && (prev.None? || s.weight > prev.value.weight) then Some(s) else prev
  }

  /** Keys in the order first seen. */
  function Keys(shares: seq<Share>): seq<HitKey> {
    if shares == [] then []
    else
      var ks, key := Keys(shares[..|shares| - 1]), HitKeyOf(shares[|shares| - 1].hit);
      if key in ks then ks else ks + [key]
  }

  /** The occurrence at `i` has the key. */
  predicate Occurs(shares: seq<Share>, key: HitKey, i: int) {
    0 <= i < |shares| && HitKeyOf(shares[i].hit) == key
  }

  lemma {:induction false} KeysMeaning(shares: seq<Share>)
    ensures forall i, j | 0 <= i < j < |Keys(shares)| :: Keys(shares)[i] != Keys(shares)[j]
    ensures forall key :: key in Keys(shares) <==> exists i :: Occurs(shares, key, i)
  {
    if shares != [] {
      var n := |shares| - 1;
      var p := shares[..n];
      KeysMeaning(p);
      forall key ensures key in Keys(shares) <==> exists i :: Occurs(shares, key, i) {
        if key in Keys(p) {
          var i :| Occurs(p, key, i);
          assert Occurs(shares, key, i);
        }
        if key == HitKeyOf(shares[n].hit) {
          assert Occurs(shares, key, n);
        }
        if i :| Occurs(shares, key, i) && i < n {
          assert Occurs(p, key, i);
        }
      }
    }
  }

  /** The kept occurrence is of a heaviest source, and the first such. */
  ghost predicate IsBest(shares: seq<Share>, key: HitKey, i: int) {
    && Occurs(shares, key, i)
    && forall j | Occurs(shares, key, j) ::
         shares[j].weight <= shares[i].weight && (j < i ==> shares[j].weight < shares[i].weight)
  }

  lemma {:induction false} NoBest(shares: seq<Share>, key: HitKey)
    ensures Best(shares, key).None? <==> forall i :: !Occurs(shares, key, i)
  {
    if shares != [] {
      var n := |shares| - 1;
      NoBest(shares[..n], key);
      assert forall i :: Occurs(shares[..n], key, i) <==> Occurs(shares, key, i) && i < n;
      assert Occurs(shares, key, n) <==> HitKeyOf(shares[n].hit) == key;
    }
  }

  lemma StillBest(shares: seq<Share>, key: HitKey, i: int, n: nat)
    requires |shares| == n + 1 && IsBest(shares[..n], key, i)
    requires Occurs(shares, key, n) ==> shares[n].weight <= shares[i].weight
    ensures IsBest(shares, key, i)
  {
    assert forall j | Occurs(shares, key, j) && j < n :: Occurs(shares[..n], key, j);
  }

  lemma NowBest(shares: seq<Share>, key: HitKey, n: nat)
    requires |shares| == n + 1 && Occurs(shares, key, n)
    requires forall j | Occurs(shares, key, j) && j < n :: shares[j].weight < shares[n].weight
    ensures IsBest(shares, key, n)
  {
  }

  /** The occurrence kept comes from a heaviest source, and is the first such. */
  lemma {:induction false} BestMeaning(shares: seq<Share>, key: HitKey) returns (i: int)
    requires Best(shares, key).Some?
    ensures IsBest(shares, key, i) && shares[i] == Best(shares, key).value
  {
    var n := |shares| - 1;
    var p := shares[..n];
    NoBest(p, key);
    assert forall j | Occurs(shares, key, j) && j < n :: Occurs(p, key, j);
    if Best(p, key).None? {
      NowBest(shares, key, n);
      return n;
    }
    i := BestMeaning(p, key);
    if HitKeyOf(shares[n].hit) == key && shares[n].weight > p[i].weight {
      NowBest(shares, key, n);
      return n;
    }
    StillBest(shares, key, i, n);
  }

  // ---------------------------------------------------------------- stable sorting

  datatype Scored = Scored(hit: Hit, score: real)

  /** The two orders in which fused hits are sorted; `MemoryFirst` puts memories ahead of turns. */
  datatype Order = ByScore | MemoryFirst

  predicate Before(o: Order, a: Scored, b: Scored) {
    match o
    case ByScore => a.score >= b.score
    case MemoryFirst => if a.hit.kind == b.hit.kind then a.score >= b.score else a.hit.kind == MemoryHit
  }

  /** Insert in front of the first element it does not come after: Python's sort is stable. */
  function InsertSorted(o: Order, x: Scored, xs: seq<Scored>): seq<Scored> {
    if xs == [] || Before(o, x, xs[0]) then [x] + xs else [xs[0]] + InsertSorted(o, x, xs[1..])
  }

  function SortBy(o: Order, xs: seq<Scored>): seq<Scored> {
    if xs == [] then [] else InsertSorted(o, xs[0], SortBy(o, xs[1..]))
  }

  ghost predicate Sorted(o: Order, xs: seq<Scored>) {
    forall i, j | 0 <= i < j < |xs| :: Before(o, xs[i], xs[j])
  }

  lemma {:induction false} InsertSortedContents(o: Order, x: Scored, xs: seq<Scored>)
    ensures multiset(InsertSorted(o, x, xs)) == multiset{x} + multiset(xs)
  {
    if xs != [] && !Before(o, x, xs[0]) {
      InsertSortedContents(o, x, xs[1..]);
      assert xs == [xs[0]] + xs[1..];
    }
  }

  lemma {:induction false} InsertSortedSorted(o: Order, x: Scored, xs: seq<Scored>)
    requires Sorted(o, xs)
    ensures Sorted(o, InsertSorted(o, x, xs))
    ensures forall y | y in InsertSorted(o, x, xs) :: y == x || y in xs
  {
    if xs == [] {
      return;
    }
    if Before(o, x, xs[0]) {
      assert forall j | 1 <= j < |xs| :: Before(o, xs[0], xs[j]);
    } else {
      InsertSortedSorted(o, x, xs[1..]);
      forall y | y in xs[1..] ensures y in xs && Before(o, xs[0], y) {
        var j :| 1 <= j < |xs| && xs[j] == y;
      }
    }
  }

  /** Sorting sorts, and neither loses nor adds anything. */
  lemma {:induction false} SortMeaning(o: Order, xs: seq<Scored>)
    ensures Sorted(o, SortBy(o, xs)) && multiset(SortBy(o, xs)) == multiset(xs)
  {
    if xs != [] {
      SortMeaning(o, xs[1..]);
      InsertSortedContents(o, xs[0], SortBy(o, xs[1..]));
      InsertSortedSorted(o, xs[0], SortBy(o, xs[1..]));
      assert xs == [xs[0]] + xs[1..];
    }
  }

  /** Sorted by score: no score is below a later one. */
  lemma ByScoreDescends(xs: seq<Scored>)
    requires Sorted(ByScore, xs)
    ensures forall i, j | 0 <= i < j < |xs| :: xs[i].score >= xs[j].score
  {
    assert forall i, j | 0 <= i < j < |xs| :: Before(ByScore, xs[i], xs[j]);
  }

  /** Sorted memories first: no memory comes after a turn, and within a kind no score is below a later one. */
  lemma MemoryFirstOrder(xs: seq<Scored>)
    requires Sorted(MemoryFirst, xs)
    ensures forall i, j | 0 <= i < j < |xs| :: xs[j].hit.kind == MemoryHit ==> xs[i].hit.kind == MemoryHit
    ensures forall i, j | 0 <= i < j < |xs| && xs[i].hit.kind == xs[j].hit.kind :: xs[i].score >= xs[j].score
  {
    assert forall i, j | 0 <= i < j < |xs| :: Before(MemoryFirst, xs[i], xs[j]);
  }

  predicate Ties(o: Order, a: Scored, b: Scored) {
    Before(o, a, b) && Before(o, b, a)
  }

  /** The elements that tie with `x`, in the order of the list. */
  function TiedWith(o: Order, xs: seq<Scored>, x: Scored): seq<Scored> {
    if xs == [] then []
    else if Ties(o, xs[0], x) then [xs[0]] + TiedWith(o, xs[1..], x)
    else TiedWith(o, xs[1..], x)
  }

  lemma {:induction false} InsertBeforeTied(o: Order, y: Scored, xs: seq<Scored>, x: Scored)
    ensures TiedWith(o, InsertSorted(o, y, xs), x)
         == if Ties(o, y, x) then [y] + TiedWith(o, xs, x) else TiedWith(o, xs, x)
  {
    if xs == [] || Before(o, y, xs[0]) {
      assert ([y] + xs)[1..] == xs;
    } else {
      InsertBeforeTied(o, y, xs[1..], x);
      var r := InsertSorted(o, y, xs[1..]);
      assert ([xs[0]] + r)[1..] == r;
    }
  }

  /** Sorting is stable: elements that tie keep their order. */
  lemma {:induction false} SortStable(o: Order, xs: seq<Scored>, x: Scored)
    ensures TiedWith(o, SortBy(o, xs), x) == TiedWith(o, xs, x)
  {
    if xs != [] {
      SortStable(o, xs[1..], x);
      InsertBeforeTied(o, xs[0], SortBy(o, xs[1..]), x);
    }
  }

  /** `[c for c, _ in fused if c.kind == kind]`. */
  function OfKind(xs: seq<Scored>, kind: Kind): seq<Scored> {
    if xs == [] then []
    else if xs[0].hit.kind == kind then [xs[0]] + OfKind(xs[1..], kind)
    else OfKind(xs[1..], kind)
  }

  lemma {:induction false} OfKindInsert(o: Order, x: Scored, xs: seq<Scored>, kind: Kind)
    requires Sorted(o, xs)
    ensures OfKind(InsertSorted(o, x, xs), kind)
         == if x.hit.kind == kind then InsertSorted(o, x, OfKind(xs, kind)) else OfKind(xs, kind)
  {
    if xs == [] || Before(o, x, xs[0]) {
      OfKindCons(x, xs, kind);
      HeadOfKind(o, x, xs, kind);
      return;
    }
    OfKindInsert(o, x, xs[1..], kind);
    OfKindCons(xs[0], InsertSorted(o, x, xs[1..]), kind);
    if xs[0].hit.kind == kind {
      InsertBehind(o, x, xs[0], OfKind(xs[1..], kind));
    }
  }

  lemma InsertBehind(o: Order, x: Scored, y: Scored, ys: seq<Scored>)
    requires !Before(o, x, y)
    ensures InsertSorted(o, x, [y] + ys) == [y] + InsertSorted(o, x, ys)
  {
    assert ([y] + ys)[1..] == ys;
  }

  lemma HeadOfKind(o: Order, x: Scored, xs: seq<Scored>, kind: Kind)
    requires Sorted(o, xs) && (xs == [] || Before(o, x, xs[0]))
    ensures InsertSorted(o, x, OfKind(xs, kind)) == [x] + OfKind(xs, kind)
  {
    OfKindMembers(xs, kind);
    if OfKind(xs, kind) != [] {
      var y := OfKind(xs, kind)[0];
      assert y in xs;
      var i :| 0 <= i < |xs| && xs[i] == y;
      assert i > 0 ==> Before(o, xs[0], y);
    }
  }

  lemma OfKindCons(x: Scored, xs: seq<Scored>, kind: Kind)
    ensures OfKind([x] + xs, kind) == if x.hit.kind == kind then [x] + OfKind(xs, kind) else OfKind(xs, kind)
  {
    assert ([x] + xs)[1..] == xs;
  }

  lemma SortCons(o: Order, x: Scored, xs: seq<Scored>)
    ensures SortBy(o, [x] + xs) == InsertSorted(o, x, SortBy(o, xs))
  {
    assert ([x] + xs)[1..] == xs;
  }

  lemma {:induction false} OfKindMembers(xs: seq<Scored>, kind: Kind)
    ensures forall y | y in OfKind(xs, kind) :: y in xs && y.hit.kind == kind
  {
    if xs != [] {
      OfKindMembers(xs[1..], kind);
    }
  }

  /** A stable sort commutes with filtering by kind. */
  lemma {:induction false} OfKindSort(o: Order, xs: seq<Scored>, kind: Kind)
    ensures OfKind(SortBy(o, xs), kind) == SortBy(o, OfKind(xs, kind))
  {
    if xs != [] {
      var x, rest := xs[0], xs[1..];
      OfKindSort(o, rest, kind);
      SortMeaning(o, rest);
      OfKindInsert(o, x, SortBy(o, rest), kind);
      SortCons(o, x, OfKind(rest, kind));
    }
  }

  lemma {:induction false} SortSorted(o: Order, xs: seq<Scored>)
    requires Sorted(o, xs)
    ensures SortBy(o, xs) == xs
  {
    if xs != [] {
      SortSorted(o, xs[1..]);
    }
  }

  lemma {:induction false} OfKindSorted(o: Order, xs: seq<Scored>, kind: Kind)
    requires Sorted(ByScore, xs)
    ensures Sorted(o, OfKind(xs, kind))
  {
    if xs != [] {
      OfKindSorted(o, xs[1..], kind);
      OfKindMembers(xs[1..], kind);
    }
  }

  /** Sorting memories first and then picking one kind is picking that kind from the list as fused. */
  lemma MemoryFirstThenFilter(xs: seq<Scored>, kind: Kind)
    requires Sorted(ByScore, xs)
    ensures OfKind(SortBy(MemoryFirst, xs), kind) == OfKind(xs, kind)
  {
    OfKindSort(MemoryFirst, xs, kind);
    OfKindSorted(MemoryFirst, xs, kind);
    SortSorted(MemoryFirst, OfKind(xs, kind));
  }

  // ---------------------------------------------------------------- fusion

  function FusedOf(shares: seq<Share>, key: HitKey): Scored
    requires Best(shares, key).Some?
  {
    Scored(Best(shares, key).value.hit, Total(shares, key))
  }

  /** The fused hits in the order first seen. */
  function Listing(shares: seq<Share>, keys: seq<HitKey>): seq<Scored> {
    if keys == [] then []
    else
      Listing(shares, keys[..|keys| - 1])
      + var key := keys[|keys| - 1]; if Best(shares, key).Some? then [FusedOf(shares, key)] else []
  }

  function Fuse(buckets: seq<Bucket>, k: nat): seq<Scored> {
    var shares := Shares(buckets, k);
    SortBy(ByScore, Listing(shares, Keys(shares)))
  }

  /** The two dictionaries of the loop, as functions of the occurrences visited. */
  ghost predicate Accumulated(
    seen: seq<Share>, keys: seq<HitKey>, scores: map<HitKey, real>, chosen: map<HitKey, (Hit, real)>)
  {
    && keys == Keys(seen)
    && (forall key :: key in scores <==> key in keys)
    && (forall key :: key in chosen <==> key in keys)
    && forall key | key in keys ::
         && scores[key] == Total(seen, key)
         && Best(seen, key).Some?
         && chosen[key] == (Best(seen, key).value.hit, Best(seen, key).value.weight)
  }

  lemma {:induction false} TotalOfUnseen(shares: seq<Share>, key: HitKey)
    requires key !in Keys(shares)
    ensures Total(shares, key) == 0.0 && Best(shares, key).None?
  {
    if shares != [] {
      TotalOfUnseen(shares[..|shares| - 1], key);
    }
  }

  lemma AccumulateMore(seen: seq<Share>, s: Share, keys: seq<HitKey>, scores: map<HitKey, real>,
                       chosen: map<HitKey, (Hit, real)>)
    requires Accumulated(seen, keys, scores, chosen)
    ensures var key := HitKeyOf(s.hit);
      var keys' := if key in scores then keys else keys + [key];
      var scores' := scores[key := (if key in scores then scores[key] else 0.0) + s.amount];
      var chosen' := if key !in chosen || s.weight > chosen[key].1 then chosen[key := (s.hit, s.weight)] else chosen;
      Accumulated(seen + [s], keys', scores', chosen')
  {
    var more := seen + [s];
    assert more[..|seen|] == seen;
    var key := HitKeyOf(s.hit);
    if key !in keys {
      TotalOfUnseen(seen, key);
    }
  }

  /** One occurrence: add to the score, keep the hit if none is kept or its source is heavier. */
  method AccumulateHit(c: Hit, weight: real, amount: real, ghost seen: seq<Share>, keys0: seq<HitKey>,
                       scores0: map<HitKey, real>, chosen0: map<HitKey, (Hit, real)>)
    returns (keys: seq<HitKey>, scores: map<HitKey, real>, chosen: map<HitKey, (Hit, real)>)
    requires Accumulated(seen, keys0, scores0, chosen0)
    ensures Accumulated(seen + [Share(c, weight, amount)], keys, scores, chosen)
  {
    hide Total, Best, Keys, Accumulated;
    AccumulateMore(seen, Share(c, weight, amount), keys0, scores0, chosen0);
    keys, scores, chosen := keys0, scores0, chosen0;
    var key := HitKeyOf(c);
    if key !in scores {
      keys := keys + [key];
    }
    scores := scores[key := (if key in scores then scores[key] else 0.0) + amount];
    if key !in chosen || weight > chosen[key].1 {
      chosen := chosen[key := (c, weight)];
    }
  }

  /** The inner loop of `rrf_fuse`, over the ranks of one source. */
  method AccumulateBucket(b: Bucket, k: nat, ghost before: seq<Share>, keys0: seq<HitKey>, scores0: map<HitKey, real>,
                          chosen0: map<HitKey, (Hit, real)>)
    returns (keys: seq<HitKey>, scores: map<HitKey, real>, chosen: map<HitKey, (Hit, real)>)
    requires Accumulated(before, keys0, scores0, chosen0)
    ensures Accumulated(before + BucketShares(b, k, |b.hits|), keys, scores, chosen)
  {
    keys, scores, chosen := keys0, scores0, chosen0;
    var weight := SourceWeight(b.source);
    ghost var seen := before;
    for rank := 0 to |b.hits|
      invariant seen == before + BucketShares(b, k, rank)
      invariant Accumulated(seen, keys, scores, chosen)
    {
      var amount := weight / ((k + rank + 1) as real);
      keys, scores, chosen := AccumulateHit(b.hits[rank], weight, amount, seen, keys, scores, chosen);
      seen := seen + [Share(b.hits[rank], weight, amount)];
    }
  }

  method ListFused(ghost seen: seq<Share>, keys: seq<HitKey>, scores: map<HitKey, real>,
                   chosen: map<HitKey, (Hit, real)>)
    returns (fused: seq<Scored>)
    requires Accumulated(seen, keys, scores, chosen)
    ensures fused == Listing(seen, keys)
  {
    fused := [];
    for n := 0 to |keys|
      invariant fused == Listing(seen, keys[..n])
    {
      assert keys[..n + 1][..n] == keys[..n];
      fused := fused + [Scored(chosen[keys[n]].0, scores[keys[n]])];
    }
    assert keys[..|keys|] == keys;
  }

  /** `rrf_fuse`. */
  method RrfFuse(buckets: seq<Bucket>, k: nat) returns (fused: seq<Scored>)
    ensures fused == Fuse(buckets, k)
    ensures forall i, j | 0 <= i < j < |fused| :: fused[i].score >= fused[j].score
  {
    var keys: seq<HitKey> := [];
    var scores: map<HitKey, real> := map[];
    var chosen: map<HitKey, (Hit, real)> := map[];
    for n := 0 to |buckets|
      invariant Accumulated(Shares(buckets[..n], k), keys, scores, chosen)
    {
      assert buckets[..n + 1][..n] == buckets[..n];
      keys, scores, chosen := AccumulateBucket(buckets[n], k, Shares(buckets[..n], k), keys, scores, chosen);
    }
    assert buckets[..|buckets|] == buckets;
    fused := ListFused(Shares(buckets, k), keys, scores, chosen);
    ghost var listed := fused;
    fused := SortBy(ByScore, fused);
    SortMeaning(ByScore, listed);
    ByScoreDescends(fused);
  }
}
